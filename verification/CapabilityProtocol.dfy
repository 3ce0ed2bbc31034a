/**
 * Request-time resolution against concurrent administration, as one state machine.
 *
 * Any number of resolvers (load, check, refresh, record, reload, grant) and of policy replacers
 * (lock the row, read the database clock, commit or roll back) take their steps in any order, among
 * issues, revocations, credential rotations and clock movements. An action that is not enabled
 * leaves the state alone, so every list of actions is the list of some run.
 */
module CapabilityProtocol {
  import opened Wrappers
  import opened Policies
  import opened PolicyChanges
  import opened PolicyRepresentations
  import opened Repositories
  import opened CapabilityDatabase
  import RepositoryResolution

  datatype Session = Session(
    capabilityId: string, revision: int, repository: Repository, credentialId: string, policy: Policy,
    expiresAt: Option<int>)

  datatype Resolver =
    | Authenticating(selector: string, secretHash: string)
    | Loaded(selector: string, secretHash: string, stored: StoredCapability)
    | Checked(selector: string, secretHash: string, stored: StoredCapability)
    | Refreshed(selector: string, secretHash: string, stored: StoredCapability, repository: Repository)
    | Recorded(selector: string, secretHash: string, stored: StoredCapability, repository: Repository)
    | Reloaded(stored: StoredCapability, repository: Repository, resolved: StoredCapability)
    | Granted(session: Session)
    | Refused

  datatype Replacer =
    | Requested(request: Replacement)
    | Locked(request: Replacement, view: Capability)
    | Timed(request: Replacement, view: Capability, at: int)
    | Finished(changed: bool)

  datatype State = State(
    db: Database,
    locks: map<string, int>,       // row locks held by replacers
    dbClock: int,                  // the database clock, which never runs backwards
    now: int,                      // the Broker's clock, about which nothing is assumed
    resolvers: map<int, Resolver>,
    replacers: map<int, Replacer>)

  datatype ResolverMove =
    | Load
    | Check(opens: bool)
    | Refresh(verified: Option<Repository>)
    | Record
    | Reload
    | Grant

  datatype ReplacerMove = Lock | ReadClock | Commit | RollBack

  datatype Action =
    | DatabaseTick(elapsed: nat)
    | BrokerClock(reading: int)
    | Issue(id: string, selector: string, secretHash: string, credentialId: string, repository: Repository,
            policy: Policy, expiresAt: Option<int>)
    | StoreCredential(credentialId: string, sealed: string)
    | Revoke(id: string, at: int)
    | Begin(r: int, selector: string, secretHash: string)
    | Resolve(r: int, move: ResolverMove)
    | Submit(p: int, request: Replacement)
    | Replace(p: int, step: ReplacerMove)

  const INITIAL := State(Database(map[], map[], map[], map[], map[]), map[], 0, 0, map[], map[])

  predicate Usable(c: Capability, now: int) {
    c.revision > 0 && c.revokedAt.None? && (c.expiresAt.Some? ==> c.expiresAt.value > now) && ValidPolicy(c.policy)
  }

  // ---------------------------------------------------------------- one resolver

  predicate Authenticates(row: Option<StoredCapability>, secretHash: string) {
    row.Some? && row.value.capability.secretHash == secretHash
  }

  predicate SameBinding(a: StoredCapability, b: StoredCapability) {
    a.id == b.id && a.capability.credentialId == b.capability.credentialId && a.repository.id == b.repository.id
  }

  /** The resolver's next local state; a move out of turn changes nothing. */
  function ResolverNext(db: Database, now: int, p: Resolver, move: ResolverMove): Resolver {
    match move
    case Load =>
      if !p.Authenticating? then p
      else
        var row := BySelector(db, p.selector);
        if Authenticates(row, p.secretHash) then Loaded(p.selector, p.secretHash, row.value) else Refused
    case Check(opens) =>
      if !p.Loaded? then p
      else if Usable(p.stored.capability, now) && opens then Checked(p.selector, p.secretHash, p.stored) else Refused
    case Refresh(verified) =>
      // The repository resolver answers with the target's own identity or not at all.
      if !p.Checked? then p
      else if verified.Some? && verified.value.id == p.stored.repository.id
      then Refreshed(p.selector, p.secretHash, p.stored, verified.value)
      else Refused
    case Record =>
      if !p.Refreshed? then p
      else if p.repository == p.stored.repository ||
              ObservationRecorded(db, p.stored.capability.credentialId, p.repository).Some?
      then Recorded(p.selector, p.secretHash, p.stored, p.repository)
      else Refused
    case Reload =>
      if !p.Recorded? then p
      else
        var row := BySelector(db, p.selector);
        if Authenticates(row, p.secretHash) && SameBinding(row.value, p.stored)
        then Reloaded(p.stored, p.repository, row.value)
        else Refused
    case Grant =>
      if !p.Reloaded? then p
      else
        var c := p.resolved.capability;
        if Usable(c, now)
        then Granted(Session(p.resolved.id, c.revision, p.repository, p.stored.capability.credentialId, c.policy,
                             c.expiresAt))
        else Refused
  }

  /** The guard of the refresh refuses no answer: whatever a resolution of the first read's repository
      comes to, in any run of concurrent resolutions, it is the target's own identity. */
  lemma RefreshTakesEveryAnswer(
      resolutions: RepositoryResolution.Run, k: nat, i: int, db: Database, now: int, p: Resolver)
    requires RepositoryResolution.IsRun(resolutions) && k < |resolutions.states| && i in resolutions.states[k].processes
    requires resolutions.states[k].processes[i].Done?
    requires p.Checked? && resolutions.states[k].processes[i].call.target == p.stored.repository
    ensures var answer := resolutions.states[k].processes[i].repository;
            ResolverNext(db, now, p, Refresh(Some(answer))) == Refreshed(p.selector, p.secretHash, p.stored, answer)
  {
    RepositoryResolution.EveryResolutionIsSound(resolutions, k, i);
  }

  function ResolversAfter(s: State, a: Action): map<int, Resolver> {
    match a
    case Begin(r, selector, secretHash) =>
      if r in s.resolvers then s.resolvers else s.resolvers[r := Authenticating(selector, secretHash)]
    case Resolve(r, move) =>
      if r in s.resolvers then s.resolvers[r := ResolverNext(s.db, s.now, s.resolvers[r], move)] else s.resolvers
    case _ => s.resolvers
  }

  // ---------------------------------------------------------------- one replacer

  predicate InTransaction(t: Replacer) {
    t.Locked? || t.Timed?
  }

  /** The replacer's next local state; `judgement` is the verdict its transaction reaches. */
  function ReplacerNext(s: State, t: Replacer, move: ReplacerMove, judgement: Judgement): Replacer {
    match move
    case Lock =>
      if !t.Requested? || t.request.capabilityId in s.locks then t
      else if t.request.capabilityId !in s.db.capabilities then Finished(false)
      else Locked(t.request, s.db.capabilities[t.request.capabilityId])
    case ReadClock => if t.Locked? then Timed(t.request, t.view, s.dbClock) else t
    case Commit => if t.Timed? then Finished(judgement.Change?) else t
    case RollBack => if InTransaction(t) then Finished(false) else t
  }

  function ReplacersAfter(s: State, a: Action, judgement: Judgement): map<int, Replacer> {
    match a
    case Submit(p, request) =>
      if p in s.replacers || Complete(request).Some? then s.replacers else s.replacers[p := Requested(request)]
    case Replace(p, move) =>
      if p in s.replacers then s.replacers[p := ReplacerNext(s, s.replacers[p], move, judgement)] else s.replacers
    case _ => s.replacers
  }

  function LocksAfter(s: State, a: Action): map<string, int> {
    if a.Replace? && a.p in s.replacers then
      var t := s.replacers[a.p];
      match a.step
      case Lock =>
        if t.Requested? && t.request.capabilityId !in s.locks && t.request.capabilityId in s.db.capabilities
        then s.locks[t.request.capabilityId := a.p]
        else s.locks
      case ReadClock => s.locks
      case Commit => if t.Timed? then s.locks - {t.request.capabilityId} else s.locks
      case RollBack => if InTransaction(t) then s.locks - {t.request.capabilityId} else s.locks
    else s.locks
  }

  // ---------------------------------------------------------------- the tables and the whole state

  /** The action that writes a replacement, once its transaction has reached `judgement`. */
  predicate Writes(s: State, a: Action, judgement: Judgement, id: string) {
    && a.Replace? && a.step.Commit? && judgement.Change? && a.p in s.replacers && s.replacers[a.p].Timed?
    && s.replacers[a.p].request.capabilityId == id && id in s.db.capabilities
  }

  ghost function TablesAfter(s: State, a: Action, judgement: Judgement): Database {
    match a
    case Issue(id, selector, secretHash, credentialId, repository, policy, expiresAt) =>
      // The issuer refuses unsupported policies before it comes to the store.
      if ValidPolicy(policy)
      then Issued(s.db, id, selector, secretHash, credentialId, repository, policy, expiresAt, s.dbClock)
      else s.db
    case StoreCredential(credentialId, sealed) => s.db.(credentials := s.db.credentials[credentialId := sealed])
    case Revoke(id, at) => if id in s.locks then s.db else Revoked(s.db, id, at)
    case Resolve(r, move) =>
      if move.Record? && r in s.resolvers && s.resolvers[r].Refreshed? then
        var p := s.resolvers[r];
        var recorded := ObservationRecorded(s.db, p.stored.capability.credentialId, p.repository);
        if p.repository != p.stored.repository && recorded.Some? then recorded.value else s.db
      else s.db
    case Replace(p, _) =>
      if p in s.replacers && s.replacers[p].Timed? && Writes(s, a, judgement, s.replacers[p].request.capabilityId) then
        var t := s.replacers[p];
        Replaced(s.db, t.view, t.request, t.at, judgement.direction)
      else s.db
    case _ => s.db
  }

  ghost function Perform(s: State, a: Action, judgement: Judgement): State {
    State(TablesAfter(s, a, judgement), LocksAfter(s, a),
          if a.DatabaseTick? then s.dbClock + a.elapsed else s.dbClock,
          if a.BrokerClock? then a.reading else s.now,
          ResolversAfter(s, a), ReplacersAfter(s, a, judgement))
  }

  /** The verdict of the transaction that `a` concludes, reached from the row it locked. */
  ghost function JudgementOf(s: State, a: Action): Judgement {
    if a.Replace? && a.p in s.replacers && s.replacers[a.p].Timed?
    then Judge(s.replacers[a.p].view, s.replacers[a.p].request, s.replacers[a.p].at)
    else Keep
  }

  ghost function Step(s: State, a: Action): State {
    Perform(s, a, JudgementOf(s, a))
  }

  /** A run: the states it passes through and the action that leads from each to the next. */
  datatype Run = Run(states: seq<State>, actions: seq<Action>)

  ghost predicate StepsAt(run: Run, k: nat)
    requires k < |run.actions| && |run.states| == |run.actions| + 1
  {
    run.states[k + 1] == Step(run.states[k], run.actions[k])
  }

  ghost predicate IsRun(run: Run) {
    && |run.states| == |run.actions| + 1 && run.states[0] == INITIAL
    && forall k :: 0 <= k < |run.actions| ==> StepsAt(run, k)
  }

  /** Every list of actions is the list of some run. */
  lemma {:induction false} RunOf(actions: seq<Action>) returns (run: Run)
    ensures IsRun(run) && run.actions == actions
  {
    if actions == [] { return Run([INITIAL], []); }
    var n := |actions| - 1;
    var shorter := RunOf(actions[..n]);
    run := Run(shorter.states + [Step(shorter.states[n], actions[n])], actions);
    forall k | 0 <= k < |actions|
      ensures StepsAt(run, k)
    {
      if k < n { assert StepsAt(shorter, k); }
    }
  }

  // ---------------------------------------------------------------- invariants of every run

  /** The unique index and the keys of the joined tables. */
  ghost predicate TablesOk(db: Database) {
    && (forall id :: id in db.capabilities ==>
          db.capabilities[id].selector in db.selectors && db.selectors[db.capabilities[id].selector] == id)
    && (forall selector :: selector in db.selectors ==>
          db.selectors[selector] in db.capabilities && db.capabilities[db.selectors[selector]].selector == selector)
    && (forall key :: key in db.observations ==> db.observations[key].id == key.1)
    && (forall id :: id in db.events ==> id in db.capabilities)
    && (forall id :: id in db.capabilities ==>
          && (db.capabilities[id].credentialId, db.capabilities[id].repositoryId) in db.observations
          && db.capabilities[id].credentialId in db.credentials)
  }

  ghost predicate StampsOk(db: Database, dbClock: int) {
    forall id :: id in db.capabilities ==> db.capabilities[id].policyUpdatedAt <= dbClock
  }

  /** A replacer inside its transaction holds its row's lock and works from the row as it still stands. */
  ghost predicate HolderOk(
      capabilities: map<string, Capability>, locks: map<string, int>, dbClock: int, p: int, t: Replacer) {
    && (!t.Finished? ==> Complete(t.request).None?)
    && (InTransaction(t) ==>
          && t.request.capabilityId in capabilities && capabilities[t.request.capabilityId] == t.view
          && t.request.capabilityId in locks && locks[t.request.capabilityId] == p)
    && (t.Timed? ==> t.view.policyUpdatedAt <= t.at <= dbClock)
  }

  ghost predicate LocksOk(s: State) {
    && (forall p :: p in s.replacers ==> HolderOk(s.db.capabilities, s.locks, s.dbClock, p, s.replacers[p]))
    && (forall id :: id in s.locks ==>
          && s.locks[id] in s.replacers && InTransaction(s.replacers[s.locks[id]])
          && s.replacers[s.locks[id]].request.capabilityId == id)
  }

  ghost predicate RowOk(c: Capability, history: seq<Event>) {
    ValidPolicy(c.policy) && Chain(history, c)
  }

  ghost predicate RowsOk(db: Database) {
    forall id :: id in db.capabilities ==> RowOk(db.capabilities[id], HistoryOf(db, id))
  }

  ghost predicate Inv(s: State) {
    TablesOk(s.db) && StampsOk(s.db, s.dbClock) && LocksOk(s) && RowsOk(s.db)
  }

  /** A row that keeps its keys may change, and its history with it. */
  lemma ChangedRowKeepsTables(db: Database, id: string, c: Capability, events: map<string, seq<Event>>)
    requires TablesOk(db) && id in db.capabilities && c.selector == db.capabilities[id].selector
    requires c.credentialId == db.capabilities[id].credentialId && c.repositoryId == db.capabilities[id].repositoryId
    requires events.Keys <= db.events.Keys + {id}
    ensures TablesOk(db.(capabilities := db.capabilities[id := c], events := events))
  {
  }

  lemma IssuingKeepsTables(db: Database, id: string, selector: string, secretHash: string, credentialId: string,
                           repository: Repository, policy: Policy, expiresAt: Option<int>, at: int)
    requires TablesOk(db)
    ensures TablesOk(Issued(db, id, selector, secretHash, credentialId, repository, policy, expiresAt, at))
  {
  }

  lemma ReplacingKeepsTables(s: State, a: Action, j: Judgement)
    requires TablesOk(s.db) && a.Replace?
    ensures TablesOk(TablesAfter(s, a, j))
  {
    var after := TablesAfter(s, a, j);
    if after != s.db {
      var id := s.replacers[a.p].request.capabilityId;
      ChangedRowKeepsTables(s.db, id, after.capabilities[id], after.events);
    }
  }

  lemma KeepsTables(s: State, a: Action, j: Judgement)
    requires TablesOk(s.db)
    ensures TablesOk(TablesAfter(s, a, j))
  {
    match a
    case Issue(id, selector, secretHash, credentialId, repository, policy, expiresAt) =>
      IssuingKeepsTables(s.db, id, selector, secretHash, credentialId, repository, policy, expiresAt, s.dbClock);
    case Revoke(id, at) =>
      if id in s.db.capabilities {
        ChangedRowKeepsTables(s.db, id, s.db.capabilities[id].(revokedAt := Some(at)), s.db.events);
      }
    case Replace(_, _) => ReplacingKeepsTables(s, a, j);
    case _ =>
  }

  lemma KeepsStamps(s: State, a: Action, j: Judgement)
    requires StampsOk(s.db, s.dbClock) && LocksOk(s)
    ensures StampsOk(TablesAfter(s, a, j), Perform(s, a, j).dbClock)
  {
    if a.Replace? && a.p in s.replacers {
      assert HolderOk(s.db.capabilities, s.locks, s.dbClock, a.p, s.replacers[a.p]);
    }
  }

  /** A row changes only when it is revoked or replaced. */
  lemma UntouchedRow(s: State, a: Action, j: Judgement, id: string)
    requires id in s.db.capabilities && !Writes(s, a, j, id) && !(a.Revoke? && a.id == id && id !in s.locks)
    ensures id in TablesAfter(s, a, j).capabilities && TablesAfter(s, a, j).capabilities[id] == s.db.capabilities[id]
    ensures HistoryOf(TablesAfter(s, a, j), id) == HistoryOf(s.db, id)
  {
  }

  /** The replacer that moves leaves a proper state behind. */
  lemma MoverStaysOk(s: State, a: Action, j: Judgement)
    requires StampsOk(s.db, s.dbClock) && LocksOk(s) && a.Replace? && a.p in s.replacers
    ensures HolderOk(TablesAfter(s, a, j).capabilities, LocksAfter(s, a), s.dbClock, a.p, ReplacersAfter(s, a, j)[a.p])
  {
    var t := s.replacers[a.p];
    assert HolderOk(s.db.capabilities, s.locks, s.dbClock, a.p, t);
    if InTransaction(ReplacersAfter(s, a, j)[a.p]) {
      UntouchedRow(s, a, j, t.request.capabilityId);
    }
  }

  /** A lock outlives every step but its holder's. */
  lemma LockStays(s: State, a: Action, j: Judgement, p: int, id: string)
    requires id in s.locks && s.locks[id] == p && !(a.Replace? && a.p == p)
    requires a.Replace? && a.p in s.replacers ==>
               HolderOk(s.db.capabilities, s.locks, s.dbClock, a.p, s.replacers[a.p])
    ensures id in LocksAfter(s, a) && LocksAfter(s, a)[id] == p && !Writes(s, a, j, id)
  {
  }

  lemma ClockGoesOn(s: State, a: Action, j: Judgement)
    ensures Perform(s, a, j).dbClock >= s.dbClock
  {
  }

  lemma HolderStaysOk(
      before: map<string, Capability>, held: map<string, int>, was: int,
      after: map<string, Capability>, holding: map<string, int>, now: int, p: int, t: Replacer)
    requires HolderOk(before, held, was, p, t) && was <= now
    requires InTransaction(t) ==>
               var id := t.request.capabilityId;
               && id in before && id in after && after[id] == before[id]
               && id in holding && holding[id] == p
    ensures HolderOk(after, holding, now, p, t)
  {
  }

  /** Every other replacer keeps its lock and the row it saw. */
  lemma BystanderStaysOk(s: State, a: Action, j: Judgement, p: int)
    requires LocksOk(s) && p in s.replacers && !(a.Replace? && a.p == p)
    ensures HolderOk(TablesAfter(s, a, j).capabilities, LocksAfter(s, a), Perform(s, a, j).dbClock, p, s.replacers[p])
  {
    var t := s.replacers[p];
    assert HolderOk(s.db.capabilities, s.locks, s.dbClock, p, t);
    ClockGoesOn(s, a, j);
    if InTransaction(t) {
      var id := t.request.capabilityId;
      if a.Replace? && a.p in s.replacers {
        assert HolderOk(s.db.capabilities, s.locks, s.dbClock, a.p, s.replacers[a.p]);
      }
      LockStays(s, a, j, p, id);
      UntouchedRow(s, a, j, id);
    }
    HolderStaysOk(s.db.capabilities, s.locks, s.dbClock,
                  TablesAfter(s, a, j).capabilities, LocksAfter(s, a), Perform(s, a, j).dbClock, p, t);
  }

  lemma LocksStayHeld(s: State, a: Action, j: Judgement, id: string)
    requires LocksOk(s) && id in LocksAfter(s, a)
    ensures var holder := LocksAfter(s, a)[id];
            && holder in ReplacersAfter(s, a, j) && InTransaction(ReplacersAfter(s, a, j)[holder])
            && ReplacersAfter(s, a, j)[holder].request.capabilityId == id
  {
  }

  lemma KeepsLocks(s: State, a: Action, j: Judgement)
    requires StampsOk(s.db, s.dbClock) && LocksOk(s)
    ensures LocksOk(Perform(s, a, j))
  {
    var t := Perform(s, a, j);
    forall p | p in t.replacers
      ensures HolderOk(t.db.capabilities, t.locks, t.dbClock, p, t.replacers[p])
    {
      if a.Replace? && a.p == p {
        MoverStaysOk(s, a, j);
      } else if p in s.replacers {
        BystanderStaysOk(s, a, j, p);
      }
    }
    forall id | id in t.locks
      ensures t.locks[id] in t.replacers && InTransaction(t.replacers[t.locks[id]])
      ensures t.replacers[t.locks[id]].request.capabilityId == id
    {
      LocksStayHeld(s, a, j, id);
    }
  }

  lemma RevokedRowOk(c: Capability, history: seq<Event>, at: int)
    requires RowOk(c, history)
    ensures RowOk(c.(revokedAt := Some(at)), history)
  {
    forall i | 0 <= i < |history|
      ensures Lawful(history[i], c.(revokedAt := Some(at)))
    {
      assert Lawful(history[i], c);
    }
  }

  lemma IssuedRowOk(c: Capability)
    requires ValidPolicy(c.policy) && c.revision == 1
    ensures RowOk(c, [])
  {
  }

  lemma NewRow(s: State, a: Action, j: Judgement, id: string)
    requires TablesOk(s.db) && id !in s.db.capabilities && id in TablesAfter(s, a, j).capabilities
    ensures var c := TablesAfter(s, a, j).capabilities[id]; ValidPolicy(c.policy) && c.revision == 1
    ensures HistoryOf(TablesAfter(s, a, j), id) == []
  {
  }

  lemma WrittenRowOk(s: State, a: Action, direction: Direction, id: string)
    requires LocksOk(s) && RowsOk(s.db) && Writes(s, a, Change(direction), id)
    requires Judge(s.replacers[a.p].view, s.replacers[a.p].request, s.replacers[a.p].at) == Change(direction)
    ensures var after := TablesAfter(s, a, Change(direction));
            id in after.capabilities && RowOk(after.capabilities[id], HistoryOf(after, id))
  {
    var t := s.replacers[a.p];
    assert HolderOk(s.db.capabilities, s.locks, s.dbClock, a.p, t);
    assert RowOk(t.view, HistoryOf(s.db, id));
    ReplacementExtendsChain(s.db, t.request, t.at, direction);
  }

  lemma UnwrittenRowOk(s: State, a: Action, j: Judgement, id: string)
    requires TablesOk(s.db) && RowsOk(s.db) && !Writes(s, a, j, id) && id in TablesAfter(s, a, j).capabilities
    ensures RowOk(TablesAfter(s, a, j).capabilities[id], HistoryOf(TablesAfter(s, a, j), id))
  {
    if id !in s.db.capabilities {
      NewRow(s, a, j, id);
      IssuedRowOk(TablesAfter(s, a, j).capabilities[id]);
    } else if a.Revoke? && a.id == id && id !in s.locks {
      RevokedRowOk(s.db.capabilities[id], HistoryOf(s.db, id), a.at);
    } else {
      UntouchedRow(s, a, j, id);
    }
  }

  lemma KeepsRows(s: State, a: Action, j: Judgement)
    requires TablesOk(s.db) && LocksOk(s) && RowsOk(s.db)
    requires forall id :: Writes(s, a, j, id) ==>
      Judge(s.replacers[a.p].view, s.replacers[a.p].request, s.replacers[a.p].at) == j
    ensures RowsOk(TablesAfter(s, a, j))
  {
    forall id | id in TablesAfter(s, a, j).capabilities
      ensures RowOk(TablesAfter(s, a, j).capabilities[id], HistoryOf(TablesAfter(s, a, j), id))
    {
      if Writes(s, a, j, id) { WrittenRowOk(s, a, j.direction, id); } else { UnwrittenRowOk(s, a, j, id); }
    }
  }

  lemma StepKeepsInv(s: State, a: Action)
    requires Inv(s)
    ensures Inv(Step(s, a))
  {
    KeepsTables(s, a, JudgementOf(s, a));
    KeepsStamps(s, a, JudgementOf(s, a));
    KeepsLocks(s, a, JudgementOf(s, a));
    KeepsRows(s, a, JudgementOf(s, a));
  }

  lemma {:induction false} EveryRunKeepsInv(run: Run, k: nat)
    requires IsRun(run) && k < |run.states|
    ensures Inv(run.states[k])
  {
    if k > 0 {
      EveryRunKeepsInv(run, k - 1);
      assert StepsAt(run, k - 1);
      StepKeepsInv(run.states[k - 1], run.actions[k - 1]);
    }
  }

  // ---------------------------------------------------------------- how one capability moves on

  /** From one state of a capability to a later one: its bindings stay, its history only grows, the
      policy once in force is the one the history starts its growth from, and a revoked capability
      is frozen. */
  ghost predicate Succeeds(before: Database, after: Database, id: string)
    requires id in before.capabilities
  {
    && id in after.capabilities
    && var c, c' := before.capabilities[id], after.capabilities[id];
    && var h, h' := HistoryOf(before, id), HistoryOf(after, id);
    && c'.selector == c.selector && c'.secretHash == c.secretHash && c'.credentialId == c.credentialId
    && c'.repositoryId == c.repositoryId && c'.expiresAt == c.expiresAt
    && h <= h' && c.revision <= c'.revision
    && (if |h| == |h'| then c'.policy == c.policy && c'.revision == c.revision
        else h'[|h|].before == Represent(c.policy, c.revision))
    && (c.revokedAt.Some? ==> c' == c && h' == h)
  }

  lemma SucceedsTransitive(a: Database, b: Database, c: Database, id: string)
    requires id in a.capabilities && Succeeds(a, b, id) && Succeeds(b, c, id)
    ensures Succeeds(a, c, id)
  {
    var h, h', h'' := HistoryOf(a, id), HistoryOf(b, id), HistoryOf(c, id);
    if |h| < |h'| { assert h''[|h|] == h'[|h|]; }
  }

  lemma WriteSucceeds(s: State, a: Action, j: Judgement, id: string)
    requires LocksOk(s) && Writes(s, a, j, id) && s.replacers[a.p].view.revokedAt.None?
    ensures Succeeds(s.db, TablesAfter(s, a, j), id)
  {
    assert HolderOk(s.db.capabilities, s.locks, s.dbClock, a.p, s.replacers[a.p]);
    var c, h, h' := s.db.capabilities[id], HistoryOf(s.db, id), HistoryOf(TablesAfter(s, a, j), id);
    assert h'[|h|].before == Represent(c.policy, c.revision);
  }

  lemma RevokeSucceeds(db: Database, id: string, at: int)
    requires id in db.capabilities
    ensures Succeeds(db, Revoked(db, id, at), id)
  {
  }

  lemma UntouchedSucceeds(before: Database, after: Database, id: string)
    requires id in before.capabilities && id in after.capabilities && after.capabilities[id] == before.capabilities[id]
    requires HistoryOf(after, id) == HistoryOf(before, id)
    ensures Succeeds(before, after, id)
  {
  }

  lemma PerformSucceeds(s: State, a: Action, j: Judgement, id: string)
    requires LocksOk(s) && id in s.db.capabilities
    requires Writes(s, a, j, id) ==> s.replacers[a.p].view.revokedAt.None?
    ensures Succeeds(s.db, TablesAfter(s, a, j), id)
  {
    if Writes(s, a, j, id) {
      WriteSucceeds(s, a, j, id);
    } else if a.Revoke? && a.id == id && id !in s.locks {
      RevokeSucceeds(s.db, id, a.at);
    } else {
      UntouchedRow(s, a, j, id);
      UntouchedSucceeds(s.db, TablesAfter(s, a, j), id);
    }
  }

  lemma ChangeIsUnrevoked(view: Capability, request: Replacement, at: int)
    ensures Judge(view, request, at).Change? ==> view.revokedAt.None?
  {
  }

  lemma StepSucceeds(s: State, a: Action, id: string)
    requires LocksOk(s) && id in s.db.capabilities
    ensures Succeeds(s.db, Step(s, a).db, id)
  {
    if a.Replace? && a.p in s.replacers && s.replacers[a.p].Timed? {
      ChangeIsUnrevoked(s.replacers[a.p].view, s.replacers[a.p].request, s.replacers[a.p].at);
    }
    PerformSucceeds(s, a, JudgementOf(s, a), id);
  }

  lemma NextSucceeds(run: Run, k: nat, id: string)
    requires IsRun(run) && k < |run.actions| && id in run.states[k].db.capabilities
    ensures Succeeds(run.states[k].db, run.states[k + 1].db, id)
  {
    EveryRunKeepsInv(run, k);
    assert StepsAt(run, k);
    StepSucceeds(run.states[k], run.actions[k], id);
  }

  lemma {:induction false} RunSucceeds(run: Run, a: nat, b: nat, id: string)
    requires IsRun(run) && a <= b < |run.states| && id in run.states[a].db.capabilities
    ensures Succeeds(run.states[a].db, run.states[b].db, id)
    decreases b - a
  {
    var first := run.states[a].db;
    if a == b {
      UntouchedSucceeds(first, first, id);
    } else {
      var second, last := run.states[a + 1].db, run.states[b].db;
      NextSucceeds(run, a, id);
      RunSucceeds(run, a + 1, b, id);
      SucceedsTransitive(first, second, last, id);
    }
  }

  // ---------------------------------------------------------------- main results on histories

  /** In every reachable state each capability carries a gap-free chain of genuine changes that ends
      in the policy in force, dated in order and before its expiry. */
  lemma HistoryIsAChain(run: Run, k: nat, id: string)
    requires IsRun(run) && k < |run.states| && id in run.states[k].db.capabilities
    ensures var s := run.states[k];
            && Chain(HistoryOf(s.db, id), s.db.capabilities[id])
            && Ordered(HistoryOf(s.db, id))
            && ValidPolicy(s.db.capabilities[id].policy)
  {
    EveryRunKeepsInv(run, k);
    assert RowOk(run.states[k].db.capabilities[id], HistoryOf(run.states[k].db, id));
    ChainIsOrdered(HistoryOf(run.states[k].db, id), run.states[k].db.capabilities[id]);
  }

  /** The policy that the permanent history says was in force at a revision. */
  ghost function PolicyAt(db: Database, id: string, revision: int): Policy
    requires id in db.capabilities
  {
    var history := HistoryOf(db, id);
    if 1 <= revision <= |history| then Decoded(history[revision - 1].before) else db.capabilities[id].policy
  }

  /** Every policy ever in force, the issued one included, can be read back from any later history. */
  lemma HistoryRemembersEveryPolicy(run: Run, a: nat, b: nat, id: string)
    requires IsRun(run) && a <= b < |run.states| && id in run.states[a].db.capabilities
    ensures id in run.states[b].db.capabilities
    ensures PolicyAt(run.states[b].db, id, run.states[a].db.capabilities[id].revision) ==
            run.states[a].db.capabilities[id].policy
  {
    RunSucceeds(run, a, b, id);
    HistoryIsAChain(run, a, id);
    HistoryIsAChain(run, b, id);
    var c := run.states[a].db.capabilities[id];
    ValidRepresentsGenuine(c.policy, c.revision);
  }

  /** Nothing is written to a capability once it is revoked. */
  lemma RevocationIsFinal(run: Run, a: nat, b: nat, id: string)
    requires IsRun(run) && a <= b < |run.states|
    requires id in run.states[a].db.capabilities && run.states[a].db.capabilities[id].revokedAt.Some?
    ensures id in run.states[b].db.capabilities &&
            run.states[b].db.capabilities[id] == run.states[a].db.capabilities[id]
    ensures HistoryOf(run.states[b].db, id) == HistoryOf(run.states[a].db, id)
  {
    RunSucceeds(run, a, b, id);
  }

  /** Whatever times are recorded, an event is only ever added to a capability that is not revoked. */
  lemma EventsFindUnrevoked(run: Run, k: nat, id: string)
    requires IsRun(run) && k < |run.actions| && id in run.states[k].db.capabilities
    requires HistoryOf(run.states[k + 1].db, id) != HistoryOf(run.states[k].db, id)
    ensures run.states[k].db.capabilities[id].revokedAt.None?
  {
    if run.states[k].db.capabilities[id].revokedAt.Some? { RevocationIsFinal(run, k, k + 1, id); }
  }

  // ---------------------------------------------------------------- main results on sessions

  /** Resolver `r` begins after state `a` of the run and is seen at state `b`. */
  ghost predicate Spans(run: Run, r: int, a: nat, b: nat) {
    IsRun(run) && a <= b < |run.states| && r !in run.states[a].resolvers && r in run.states[b].resolvers
  }

  /** The last action that moved resolver `r` before `b`, given that `r` had not begun at `a`. */
  lemma LastMove(run: Run, r: int, a: nat, b: nat) returns (k: nat)
    requires Spans(run, r, a, b)
    ensures a <= k < b
    ensures r in run.states[k + 1].resolvers && run.states[k + 1].resolvers[r] == run.states[b].resolvers[r]
    ensures r !in run.states[k].resolvers || run.states[k].resolvers[r] != run.states[k + 1].resolvers[r]
  {
    k := b;
    while r in run.states[k].resolvers && run.states[k].resolvers[r] == run.states[b].resolvers[r]
      invariant a <= k <= b
      invariant k < b ==>
                r in run.states[k + 1].resolvers && run.states[k + 1].resolvers[r] == run.states[b].resolvers[r]
      decreases k
    {
      k := k - 1;
    }
  }

  /** Resolver `r` is carried by `move`, the action at k, to where it stands at `next`. */
  ghost predicate Moves(run: Run, r: int, k: nat, move: ResolverMove, next: nat)
    requires IsRun(run) && next < |run.states|
  {
    && k < next && r in run.states[k].resolvers && r in run.states[next].resolvers
    && run.actions[k] == Resolve(r, move)
    && run.states[next].resolvers[r] ==
         ResolverNext(run.states[k].db, run.states[k].now, run.states[k].resolvers[r], move)
    && run.states[next].resolvers[r] != run.states[k].resolvers[r]
  }

  /** The move that brought resolver `r` where it stands, or its beginning. */
  lemma MoveBefore(run: Run, r: int, a: nat, b: nat) returns (k: nat)
    requires Spans(run, r, a, b)
    ensures a <= k < b
    ensures r in run.states[k].resolvers ==> run.actions[k].Resolve? && Moves(run, r, k, run.actions[k].move, b)
    ensures r !in run.states[k].resolvers ==>
              var p := run.states[b].resolvers[r];
              p.Authenticating? && run.actions[k] == Begin(r, p.selector, p.secretHash)
  {
    k := LastMove(run, r, a, b);
    assert StepsAt(run, k);
    assert run.states[k + 1].resolvers == ResolversAfter(run.states[k], run.actions[k]);
  }

  /** A move out of one local state into another, read backwards. */
  lemma MoveIsInTurn(db: Database, now: int, p: Resolver, move: ResolverMove)
    requires ResolverNext(db, now, p, move) != p
    ensures match ResolverNext(db, now, p, move)
            case Authenticating(_, _) => false
            case Loaded(selector, secretHash, stored) =>
              && p == Authenticating(selector, secretHash) && move == Load
              && BySelector(db, selector) == Some(stored) && stored.capability.secretHash == secretHash
            case Checked(selector, secretHash, stored) =>
              p == Loaded(selector, secretHash, stored) && move == Check(true) && Usable(stored.capability, now)
            case Refreshed(selector, secretHash, stored, repository) =>
              && p == Checked(selector, secretHash, stored) && move == Refresh(Some(repository))
              && repository.id == stored.repository.id
            case Recorded(selector, secretHash, stored, repository) =>
              && p == Refreshed(selector, secretHash, stored, repository) && move == Record
              && (repository == stored.repository
                  || ObservationRecorded(db, stored.capability.credentialId, repository).Some?)
            case Reloaded(stored, repository, resolved) =>
              && p.Recorded? && p == Recorded(p.selector, p.secretHash, stored, repository) && move == Reload
              && BySelector(db, p.selector) == Some(resolved) && resolved.capability.secretHash == p.secretHash
              && SameBinding(resolved, stored)
            case Granted(session) =>
              && p.Reloaded? && move == Grant && Usable(p.resolved.capability, now)
              && var c := p.resolved.capability;
              && session == Session(p.resolved.id, c.revision, p.repository, p.stored.capability.credentialId,
                                    c.policy, c.expiresAt)
            case Refused => true
  {
  }

  /** The action that put resolver `r` into a state past its beginning. */
  lemma MoveInto(run: Run, r: int, a: nat, b: nat) returns (k: nat)
    requires Spans(run, r, a, b) && !run.states[b].resolvers[r].Authenticating?
    ensures a < k < b && Spans(run, r, a, k) && run.actions[k].Resolve? && Moves(run, r, k, run.actions[k].move, b)
  {
    k := MoveBefore(run, r, a, b);
    assert r in run.states[k].resolvers;
  }

  /** The actions by which a request got its session, one for each stage. */
  datatype Trace = Trace(
    begun: nat, loaded: nat, checked: nat, refreshed: nat, recorded: nat, reloaded: nat, granted: nat)

  /** What the stages up to the refresh leave in resolver `r`, seen before the action at t.recorded. */
  ghost predicate TracesFirst(run: Run, r: int, a: nat, t: Trace, p: Resolver) {
    && IsRun(run) && p.Refreshed? && a <= t.begun < t.loaded < t.checked < t.refreshed < |run.actions|
    && run.actions[t.begun] == Begin(r, p.selector, p.secretHash)
    && run.actions[t.loaded] == Resolve(r, Load) && run.actions[t.checked] == Resolve(r, Check(true))
    && run.actions[t.refreshed] == Resolve(r, Refresh(Some(p.repository)))
    && BySelector(run.states[t.loaded].db, p.selector) == Some(p.stored)
    && p.stored.capability.secretHash == p.secretHash && p.repository.id == p.stored.repository.id
    && Usable(p.stored.capability, run.states[t.checked].now)
  }

  /** The same for the stages after it, from the granted session. */
  ghost predicate TracesLast(run: Run, r: int, b: nat, t: Trace, p: Resolver, resolved: StoredCapability) {
    && IsRun(run) && p.Refreshed? && t.refreshed < t.recorded < t.reloaded < t.granted < b < |run.states|
    && run.actions[t.recorded] == Resolve(r, Record) && run.actions[t.reloaded] == Resolve(r, Reload)
    && run.actions[t.granted] == Resolve(r, Grant)
    && r in run.states[t.recorded].resolvers && run.states[t.recorded].resolvers[r] == p
    && (p.repository == p.stored.repository
        || ObservationRecorded(run.states[t.recorded].db, p.stored.capability.credentialId, p.repository).Some?)
    && BySelector(run.states[t.reloaded].db, p.selector) == Some(resolved)
    && resolved.capability.secretHash == p.secretHash && SameBinding(resolved, p.stored)
    && var c := resolved.capability;
    && Usable(c, run.states[t.granted].now) && r in run.states[b].resolvers
    && run.states[b].resolvers[r] ==
         Granted(Session(resolved.id, c.revision, p.repository, p.stored.capability.credentialId, c.policy,
                         c.expiresAt))
  }

  lemma TraceOfRefreshed(run: Run, r: int, a: nat, b: nat) returns (t: Trace)
    requires Spans(run, r, a, b) && run.states[b].resolvers[r].Refreshed?
    ensures TracesFirst(run, r, a, t, run.states[b].resolvers[r]) && t.refreshed < b
  {
    var n := MoveInto(run, r, a, b);
    MoveIsInTurn(run.states[n].db, run.states[n].now, run.states[n].resolvers[r], run.actions[n].move);
    var c := MoveInto(run, r, a, n);
    MoveIsInTurn(run.states[c].db, run.states[c].now, run.states[c].resolvers[r], run.actions[c].move);
    var f := MoveInto(run, r, a, c);
    MoveIsInTurn(run.states[f].db, run.states[f].now, run.states[f].resolvers[r], run.actions[f].move);
    var j := MoveBefore(run, r, a, f);
    if r in run.states[j].resolvers {
      MoveIsInTurn(run.states[j].db, run.states[j].now, run.states[j].resolvers[r], run.actions[j].move);
    }
    t := Trace(j, f, c, n, n, n, n);
  }

  /** Every granted session has its trace. */
  lemma SessionTrace(run: Run, r: int, a: nat, b: nat) returns (t: Trace, p: Resolver, resolved: StoredCapability)
    requires Spans(run, r, a, b) && run.states[b].resolvers[r].Granted?
    ensures TracesFirst(run, r, a, t, p) && TracesLast(run, r, b, t, p, resolved)
  {
    var m := MoveInto(run, r, a, b);
    MoveIsInTurn(run.states[m].db, run.states[m].now, run.states[m].resolvers[r], run.actions[m].move);
    var k := MoveInto(run, r, a, m);
    MoveIsInTurn(run.states[k].db, run.states[k].now, run.states[k].resolvers[r], run.actions[k].move);
    var w := MoveInto(run, r, a, k);
    MoveIsInTurn(run.states[w].db, run.states[w].now, run.states[w].resolvers[r], run.actions[w].move);
    var first := TraceOfRefreshed(run, r, a, w);
    t := first.(recorded := w, reloaded := k, granted := m);
    p, resolved := run.states[w].resolvers[r], run.states[m].resolvers[r].resolved;
  }

  lemma JoinedRow(db: Database, selector: string, row: StoredCapability)
    requires TablesOk(db) && BySelector(db, selector) == Some(row)
    ensures row.id in db.capabilities && db.capabilities[row.id] == row.capability
    ensures row.capability.selector == selector && row.repository.id == row.capability.repositoryId
    ensures (row.capability.credentialId, row.repository.id) in db.observations
    ensures db.observations[(row.capability.credentialId, row.repository.id)] == row.repository
  {
  }

  /** Every granted session takes effect at one instant between the request and the answer. There the
      stored row carried exactly the session's policy and revision and was not revoked; at the later
      clock reading it had not expired; and the capability, its credential and its repository are
      those of the first read. */
  lemma SessionLinearizes(run: Run, r: int, a: nat, b: nat) returns (f: nat, k: nat, m: nat)
    requires Spans(run, r, a, b) && run.states[b].resolvers[r].Granted?
    ensures a <= f <= k <= m <= b
    ensures var session := run.states[b].resolvers[r].session;
            && session.capabilityId in run.states[f].db.capabilities
            && session.capabilityId in run.states[k].db.capabilities
            && var first := run.states[f].db.capabilities[session.capabilityId];
            && var final := run.states[k].db.capabilities[session.capabilityId];
            && session.policy == final.policy && session.revision == final.revision && ValidPolicy(session.policy)
            && final.revokedAt.None?
            && session.expiresAt == final.expiresAt
            && (session.expiresAt.Some? ==> run.states[m].now < session.expiresAt.value)
            && session.credentialId == first.credentialId == final.credentialId
            && session.repository.id == first.repositoryId == final.repositoryId
  {
    var t, p, resolved := SessionTrace(run, r, a, b);
    f, k, m := t.loaded, t.reloaded, t.granted;
    EveryRunKeepsInv(run, f);
    EveryRunKeepsInv(run, k);
    JoinedRow(run.states[f].db, p.selector, p.stored);
    JoinedRow(run.states[k].db, p.selector, resolved);
  }

  /** A session is at least as new as any policy committed before its request began. */
  lemma SessionIsCurrent(run: Run, r: int, a: nat, b: nat)
    requires Spans(run, r, a, b) && run.states[b].resolvers[r].Granted?
    ensures var session := run.states[b].resolvers[r].session;
            session.capabilityId in run.states[a].db.capabilities ==>
              && session.capabilityId in run.states[b].db.capabilities
              && run.states[a].db.capabilities[session.capabilityId].revision <= session.revision
              && PolicyAt(run.states[b].db, session.capabilityId, session.revision) == session.policy
  {
    var session := run.states[b].resolvers[r].session;
    var f, k, m := SessionLinearizes(run, r, a, b);
    if session.capabilityId in run.states[a].db.capabilities {
      RunSucceeds(run, a, k, session.capabilityId);
      HistoryRemembersEveryPolicy(run, k, b, session.capabilityId);
    }
  }

  /** A request that begins after a revocation is never granted. */
  lemma RevokedIsNeverGranted(run: Run, r: int, a: nat, b: nat, id: string)
    requires Spans(run, r, a, b)
    requires id in run.states[a].db.capabilities && run.states[a].db.capabilities[id].revokedAt.Some?
    ensures run.states[b].resolvers[r].Granted? ==> run.states[b].resolvers[r].session.capabilityId != id
  {
    if run.states[b].resolvers[r].Granted? && run.states[b].resolvers[r].session.capabilityId == id {
      var f, k, m := SessionLinearizes(run, r, a, b);
      RevocationIsFinal(run, a, k, id);
      assert false;
    }
  }
}
