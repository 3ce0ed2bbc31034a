/**
 * What sessions, histories and revocations owe to the actions of a run: nothing is granted that was not
 * issued and presented, nothing is written that was not submitted, and what nobody disturbs goes through.
 */
module CapabilityRequests {
  import opened Wrappers
  import opened Policies
  import opened PolicyChanges
  import opened PolicyRepresentations
  import opened Repositories
  import opened CapabilityDatabase
  import opened CapabilityProtocol

  // ---------------------------------------------------------------- where rows come from

  /** The action that issued a stored capability, and the row it wrote. */
  lemma {:induction false} WasIssued(run: Run, k: nat, id: string) returns (i: nat)
    requires IsRun(run) && k < |run.states| && id in run.states[k].db.capabilities
    ensures i < k && run.actions[i].Issue? && run.actions[i].id == id && id in run.states[i + 1].db.capabilities
    ensures var a, c := run.actions[i], run.states[i + 1].db.capabilities[id];
            && c.selector == a.selector && c.secretHash == a.secretHash && c.credentialId == a.credentialId
            && c.repositoryId == a.repository.id && c.policy == a.policy && c.revision == 1
            && c.expiresAt == a.expiresAt && c.revokedAt == None
    decreases k
  {
    assert StepsAt(run, k - 1);
    if id in run.states[k - 1].db.capabilities { i := WasIssued(run, k - 1, id); } else { i := k - 1; }
  }

  /** A stored capability is bound as it was issued, whatever happened since, and its history still has
      the policy it was issued with. */
  lemma BoundAsIssued(run: Run, k: nat, id: string) returns (i: nat)
    requires IsRun(run) && k < |run.states| && id in run.states[k].db.capabilities
    ensures i < k && run.actions[i].Issue? && run.actions[i].id == id
    ensures var a, c := run.actions[i], run.states[k].db.capabilities[id];
            && c.selector == a.selector && c.secretHash == a.secretHash && c.credentialId == a.credentialId
            && c.repositoryId == a.repository.id && c.expiresAt == a.expiresAt
            && PolicyAt(run.states[k].db, id, 1) == a.policy
  {
    i := WasIssued(run, k, id);
    RunSucceeds(run, i + 1, k, id);
    HistoryRemembersEveryPolicy(run, i + 1, k, id);
  }

  /** A revocation time is that of an action that revoked this capability. */
  lemma {:induction false} WasRevoked(run: Run, k: nat, id: string) returns (n: nat)
    requires IsRun(run) && k < |run.states| && id in run.states[k].db.capabilities
    requires run.states[k].db.capabilities[id].revokedAt.Some?
    ensures n < k && run.actions[n] == Revoke(id, run.states[k].db.capabilities[id].revokedAt.value)
    decreases k
  {
    var s, a := run.states[k - 1], run.actions[k - 1];
    assert StepsAt(run, k - 1);
    if id in s.db.capabilities && s.db.capabilities[id].revokedAt == run.states[k].db.capabilities[id].revokedAt {
      n := WasRevoked(run, k - 1, id);
    } else {
      EveryRunKeepsInv(run, k - 1);
      RevokedBy(s, a, JudgementOf(s, a), id);
      n := k - 1;
    }
  }

  lemma RevokedBy(s: State, a: Action, j: Judgement, id: string)
    requires LocksOk(s) && id in TablesAfter(s, a, j).capabilities
    requires TablesAfter(s, a, j).capabilities[id].revokedAt.Some?
    requires id in s.db.capabilities ==>
               s.db.capabilities[id].revokedAt != TablesAfter(s, a, j).capabilities[id].revokedAt
    ensures a == Revoke(id, TablesAfter(s, a, j).capabilities[id].revokedAt.value)
  {
  }

  /** A revocation that meets no lock takes effect at once, and once only. */
  lemma RevocationWorks(run: Run, k: nat, id: string, at: int)
    requires IsRun(run) && k < |run.actions| && run.actions[k] == Revoke(id, at)
    requires id in run.states[k].db.capabilities && id !in run.states[k].locks
    ensures id in run.states[k + 1].db.capabilities
    ensures var c := run.states[k].db.capabilities[id];
            run.states[k + 1].db.capabilities[id] ==
            if c.revokedAt.Some? then c else c.(revokedAt := Some(at))
  {
    assert StepsAt(run, k);
  }

  /** An issue goes through exactly when its policy is supported, its identifier and selector are new and its
      credential is stored; the row then is as asked for, and the repository is on record. */
  lemma IssueWorks(run: Run, k: nat)
    requires IsRun(run) && k < |run.actions| && run.actions[k].Issue?
    ensures var a, s, t := run.actions[k], run.states[k].db, run.states[k + 1].db;
            if ValidPolicy(a.policy) && a.id !in s.capabilities && a.credentialId in s.credentials
               && forall id :: id in s.capabilities ==> s.capabilities[id].selector != a.selector
            then a.id in t.capabilities && IsStoredAs(t, a.id, a.selector, a.secretHash)
                 && t.capabilities[a.id].policy == a.policy && t.capabilities[a.id].expiresAt == a.expiresAt
                 && t.capabilities[a.id].revokedAt == None && t.capabilities[a.id].revision == 1
                 && t.capabilities[a.id].credentialId == a.credentialId
                 && t.capabilities[a.id].repositoryId == a.repository.id
                 && t.observations == s.observations[(a.credentialId, a.repository.id) := a.repository]
            else t == s
  {
    EveryRunKeepsInv(run, k);
    assert StepsAt(run, k);
    var s, a := run.states[k].db, run.actions[k];
    assert a.selector in s.selectors ==> s.capabilities[s.selectors[a.selector]].selector == a.selector;
  }

  /** Clocks and stored credentials are what the last action on them says. */
  lemma SurroundingsMove(run: Run, k: nat)
    requires IsRun(run) && k < |run.actions|
    ensures var a, s, t := run.actions[k], run.states[k], run.states[k + 1];
            && t.dbClock == s.dbClock + (if a.DatabaseTick? then a.elapsed else 0)
            && t.now == (if a.BrokerClock? then a.reading else s.now)
            && t.db.credentials ==
                 (if a.StoreCredential? then s.db.credentials[a.credentialId := a.sealed] else s.db.credentials)
  {
    assert StepsAt(run, k);
  }

  // ---------------------------------------------------------------- sessions

  /** The actions of one request, in their order: it begins, is loaded, passes the check, is refreshed to
      `repository`, recorded, loaded again and granted. */
  ghost predicate Stages(run: Run, r: int, a: nat, b: nat, t: Trace, repository: Repository) {
    && a <= t.begun < t.loaded < t.checked < t.refreshed < t.recorded < t.reloaded < t.granted < b <= |run.actions|
    && run.actions[t.begun].Begin? && run.actions[t.begun].r == r
    && run.actions[t.loaded] == Resolve(r, Load) && run.actions[t.checked] == Resolve(r, Check(true))
    && run.actions[t.refreshed] == Resolve(r, Refresh(Some(repository)))
    && run.actions[t.recorded] == Resolve(r, Record) && run.actions[t.reloaded] == Resolve(r, Reload)
    && run.actions[t.granted] == Resolve(r, Grant)
  }

  /** A granted session rests on a request that presented the selector and the secret hash with which its
      capability was issued. The stored row had both at either read; the capability was unrevoked and
      unexpired at either check; the session's repository is what the resolver verified, and was on
      record before the final read. */
  lemma SessionAnswersItsRequest(run: Run, r: int, a: nat, b: nat) returns (i: nat, t: Trace)
    requires Spans(run, r, a, b) && run.states[b].resolvers[r].Granted?
    ensures Stages(run, r, a, b, t, run.states[b].resolvers[r].session.repository)
    ensures i < t.loaded && run.actions[i].Issue?
    ensures var session, begin, issue := run.states[b].resolvers[r].session, run.actions[t.begun], run.actions[i];
            && issue.id == session.capabilityId && issue.credentialId == session.credentialId
            && issue.repository.id == session.repository.id && issue.expiresAt == session.expiresAt
            && issue.selector == begin.selector && issue.secretHash == begin.secretHash
            && IsStoredAs(run.states[t.loaded].db, session.capabilityId, begin.selector, begin.secretHash)
            && IsStoredAs(run.states[t.reloaded].db, session.capabilityId, begin.selector, begin.secretHash)
    ensures var session := run.states[b].resolvers[r].session;
            && IsAlive(run.states[t.loaded].db, session.capabilityId, run.states[t.checked].now)
            && IsAlive(run.states[t.reloaded].db, session.capabilityId, run.states[t.granted].now)
            && (OnRecord(run.states[t.loaded].db, session) || OnRecord(run.states[t.recorded + 1].db, session))
  {
    var p, resolved;
    t, p, resolved := SessionTrace(run, r, a, b);
    var id := ReadsRow(run, r, a, b, t, p, resolved);
    i := BoundAsIssued(run, t.loaded, id);
    RunSucceeds(run, t.loaded, t.reloaded, id);
    WasOnRecord(run, r, a, b, t, p, resolved);
  }

  /** Both reads found the row of the capability, as it then was. */
  lemma ReadsRow(run: Run, r: int, a: nat, b: nat, t: Trace, p: Resolver, resolved: StoredCapability)
    returns (id: string)
    requires TracesFirst(run, r, a, t, p) && TracesLast(run, r, b, t, p, resolved)
    ensures id == p.stored.id == resolved.id
    ensures IsStoredAs(run.states[t.loaded].db, id, p.selector, p.secretHash)
    ensures IsStoredAs(run.states[t.reloaded].db, id, p.selector, p.secretHash)
    ensures run.states[t.loaded].db.capabilities[id] == p.stored.capability
    ensures run.states[t.reloaded].db.capabilities[id] == resolved.capability
    ensures p.stored.repository.id == p.stored.capability.repositoryId
  {
    id := p.stored.id;
    EveryRunKeepsInv(run, t.loaded);
    EveryRunKeepsInv(run, t.reloaded);
    JoinedRow(run.states[t.loaded].db, p.selector, p.stored);
    JoinedRow(run.states[t.reloaded].db, p.selector, resolved);
  }

  /** Recording an observation puts it in the table. */
  lemma RecordingShows(s: State, r: int, j: Judgement)
    requires r in s.resolvers && s.resolvers[r].Refreshed?
    requires var p := s.resolvers[r];
             && p.repository != p.stored.repository
             && ObservationRecorded(s.db, p.stored.capability.credentialId, p.repository).Some?
    ensures var p, after := s.resolvers[r], TablesAfter(s, Resolve(r, Record), j).observations;
            var key := (p.stored.capability.credentialId, p.repository.id);
            key in after && after[key] == p.repository
  {
  }

  lemma WasOnRecord(run: Run, r: int, a: nat, b: nat, t: Trace, p: Resolver, resolved: StoredCapability)
    requires TracesFirst(run, r, a, t, p) && TracesLast(run, r, b, t, p, resolved)
    ensures var session := run.states[b].resolvers[r].session;
            OnRecord(run.states[t.loaded].db, session) || OnRecord(run.states[t.recorded + 1].db, session)
  {
    if p.repository == p.stored.repository {
      EveryRunKeepsInv(run, t.loaded);
      JoinedRow(run.states[t.loaded].db, p.selector, p.stored);
    } else {
      RecordingShows(run.states[t.recorded], r, JudgementOf(run.states[t.recorded], run.actions[t.recorded]));
      assert StepsAt(run, t.recorded);
    }
  }

  /** Neither revoked nor expired at that time. */
  predicate IsAlive(db: Database, id: string, now: int) {
    && id in db.capabilities && db.capabilities[id].revokedAt.None?
    && (db.capabilities[id].expiresAt.Some? ==> now < db.capabilities[id].expiresAt.value)
  }

  predicate IsStoredAs(db: Database, id: string, selector: string, secretHash: string) {
    && id in db.capabilities
    && db.capabilities[id].selector == selector && db.capabilities[id].secretHash == secretHash
  }

  /** The session's repository, all of it, is the observation kept for its credential. */
  predicate OnRecord(db: Database, session: Session) {
    && (session.credentialId, session.repository.id) in db.observations
    && db.observations[(session.credentialId, session.repository.id)] == session.repository
  }

  // ---------------------------------------------------------------- requests that nobody disturbs

  /** A capability that such a request may use, found in the tables alone. */
  ghost predicate Admits(s: State, id: string, selector: string, secretHash: string, verified: Option<Repository>) {
    && IsStoredAs(s.db, id, selector, secretHash) && IsAlive(s.db, id, s.now)
    && verified.Some? && verified.value.id == s.db.capabilities[id].repositoryId
  }

  lemma AfterMove(run: Run, k: nat, r: int, move: ResolverMove)
    requires IsRun(run) && k < |run.actions| && run.actions[k] == Resolve(r, move) && r in run.states[k].resolvers
    ensures var s, t := run.states[k], run.states[k + 1];
            && r in t.resolvers && t.resolvers[r] == ResolverNext(s.db, s.now, s.resolvers[r], move)
            && t.now == s.now
            && t.db.(observations := map[]) == s.db.(observations := map[])
            && (!move.Record? ==> t.db == s.db)
  {
    assert StepsAt(run, k);
  }

  /** The row that a selector leads to, when the tables are in order. */
  lemma RowOfSelector(db: Database, selector: string)
    requires TablesOk(db)
    ensures BySelector(db, selector).Some? <==> selector in db.selectors
    ensures BySelector(db, selector).Some? ==>
              var row := BySelector(db, selector).value;
              && row.id == db.selectors[selector] && row.id in db.capabilities
              && row.capability == db.capabilities[row.id] && row.repository.id == row.capability.repositoryId
  {
  }

  lemma AdmitsBySelector(s: State, selector: string, secretHash: string, verified: Option<Repository>)
    requires TablesOk(s.db)
    ensures (exists id :: Admits(s, id, selector, secretHash, verified)) <==>
            selector in s.db.selectors && Admits(s, s.db.selectors[selector], selector, secretHash, verified)
  {
  }

  /** The moves of a request come one right after the other, from k on. */
  predicate Undisturbed(
      run: Run, k: nat, r: int, selector: string, secretHash: string, opens: bool, verified: Option<Repository>) {
    && k + 7 <= |run.actions|
    && run.actions[k] == Begin(r, selector, secretHash) && run.actions[k + 1] == Resolve(r, Load)
    && run.actions[k + 2] == Resolve(r, Check(opens)) && run.actions[k + 3] == Resolve(r, Refresh(verified))
    && run.actions[k + 4] == Resolve(r, Record) && run.actions[k + 5] == Resolve(r, Reload)
    && run.actions[k + 6] == Resolve(r, Grant)
  }

  function AfterLoad(s: State, selector: string, secretHash: string): Resolver {
    ResolverNext(s.db, s.now, Authenticating(selector, secretHash), Load)
  }

  function AfterRefresh(s: State, p: Resolver, opens: bool, verified: Option<Repository>): Resolver {
    ResolverNext(s.db, s.now, ResolverNext(s.db, s.now, p, Check(opens)), Refresh(verified))
  }

  lemma LoadFinds(s: State, selector: string, secretHash: string)
    requires TablesOk(s.db)
    ensures AfterLoad(s, selector, secretHash) ==
            if selector in s.db.selectors && IsStoredAs(s.db, s.db.selectors[selector], selector, secretHash)
               && BySelector(s.db, selector).Some?
            then Loaded(selector, secretHash, BySelector(s.db, selector).value) else Refused
  {
    RowOfSelector(s.db, selector);
  }

  lemma RefreshFinds(s: State, selector: string, secretHash: string, opens: bool, verified: Option<Repository>)
    requires TablesOk(s.db) && RowsOk(s.db)
    ensures AfterRefresh(s, AfterLoad(s, selector, secretHash), opens, verified) ==
            if opens && selector in s.db.selectors && BySelector(s.db, selector).Some?
               && Admits(s, s.db.selectors[selector], selector, secretHash, verified)
            then Refreshed(selector, secretHash, BySelector(s.db, selector).value, verified.value) else Refused
  {
    LoadFinds(s, selector, secretHash);
    RowOfSelector(s.db, selector);
    if selector in s.db.selectors {
      var id := s.db.selectors[selector];
      assert RowOk(s.db.capabilities[id], HistoryOf(s.db, id));
    }
  }

  /** Loading, checking and refreshing, in tables that stay as they are. */
  lemma FirstHalf(run: Run, k: nat, r: int, selector: string, secretHash: string, opens: bool,
                  verified: Option<Repository>)
    requires IsRun(run) && Undisturbed(run, k, r, selector, secretHash, opens, verified)
    requires r !in run.states[k].resolvers
    ensures var s, t := run.states[k], run.states[k + 4];
            && t.db == s.db && t.now == s.now && r in t.resolvers
            && t.resolvers[r] == AfterRefresh(s, AfterLoad(s, selector, secretHash), opens, verified)
  {
    assert StepsAt(run, k);
    AfterMove(run, k + 1, r, Load);
    AfterMove(run, k + 2, r, Check(opens));
    AfterMove(run, k + 3, r, Refresh(verified));
  }

  /** Recording, loading again and granting, from a refreshed request or a refused one. */
  lemma SecondHalf(run: Run, k: nat, r: int, selector: string, secretHash: string, opens: bool,
                   verified: Option<Repository>)
    requires IsRun(run) && Undisturbed(run, k, r, selector, secretHash, opens, verified)
    requires r in run.states[k + 4].resolvers
    ensures r in run.states[k + 7].resolvers
    ensures run.states[k + 4].resolvers[r] == Refused ==> run.states[k + 7].resolvers[r] == Refused
    ensures var p, s, t := run.states[k + 4].resolvers[r], run.states[k + 4], run.states[k + 5];
            p.Refreshed? ==>
              && t.db.(observations := map[]) == s.db.(observations := map[]) && r in t.resolvers
              && t.resolvers[r] == ResolverNext(s.db, s.now, p, Record)
              && run.states[k + 7].resolvers[r] ==
                   ResolverNext(t.db, s.now, ResolverNext(t.db, s.now, t.resolvers[r], Reload), Grant)
  {
    AfterMove(run, k + 4, r, Record);
    AfterMove(run, k + 5, r, Reload);
    AfterMove(run, k + 6, r, Grant);
  }

  lemma RecordWorks(db: Database, now: int, p: Resolver, selector: string)
    requires TablesOk(db) && p.Refreshed? && BySelector(db, selector) == Some(p.stored)
    requires p.repository.id == p.stored.repository.id
    ensures ResolverNext(db, now, p, Record) == Recorded(p.selector, p.secretHash, p.stored, p.repository)
  {
  }

  /** The final read finds the same row again, and the grant depends on that row alone. */
  lemma GrantFollows(before: Database, after: Database, now: int, p: Resolver)
    requires TablesOk(before) && TablesOk(after) && before.(observations := map[]) == after.(observations := map[])
    requires p.Recorded? && BySelector(before, p.selector) == Some(p.stored)
    requires p.stored.capability.secretHash == p.secretHash && Usable(p.stored.capability, now)
    ensures ResolverNext(after, now, ResolverNext(after, now, p, Reload), Grant).Granted?
  {
    RowOfSelector(before, p.selector);
    RowOfSelector(after, p.selector);
  }

  /** An undisturbed request is granted if and only if the tables hold an unrevoked, unexpired capability
      with its selector and secret hash, the credential opens and the repository is verified. */
  lemma UndisturbedIsGranted(run: Run, k: nat, r: int, selector: string, secretHash: string, opens: bool,
                             verified: Option<Repository>)
    requires IsRun(run) && Undisturbed(run, k, r, selector, secretHash, opens, verified)
    requires r !in run.states[k].resolvers
    ensures r in run.states[k + 7].resolvers
    ensures run.states[k + 7].resolvers[r].Granted? <==>
            opens && exists id :: Admits(run.states[k], id, selector, secretHash, verified)
  {
    var s := run.states[k];
    EveryRunKeepsInv(run, k);
    EveryRunKeepsInv(run, k + 5);
    FirstHalf(run, k, r, selector, secretHash, opens, verified);
    SecondHalf(run, k, r, selector, secretHash, opens, verified);
    AdmitsBySelector(s, selector, secretHash, verified);
    RefreshFinds(s, selector, secretHash, opens, verified);
    RowOfSelector(s.db, selector);
    var p := run.states[k + 4].resolvers[r];
    if p.Refreshed? {
      RefreshedIsUsable(s, p, verified);
      RecordWorks(s.db, s.now, p, selector);
      GrantFollows(s.db, run.states[k + 5].db, s.now, run.states[k + 5].resolvers[r]);
    }
  }

  lemma RefreshedIsUsable(s: State, p: Resolver, verified: Option<Repository>)
    requires TablesOk(s.db) && RowsOk(s.db) && p.Refreshed? && BySelector(s.db, p.selector) == Some(p.stored)
    requires Admits(s, s.db.selectors[p.selector], p.selector, p.secretHash, verified)
    ensures Usable(p.stored.capability, s.now) && p.stored.capability.secretHash == p.secretHash
    ensures verified.value.id == p.stored.repository.id
  {
    RowOfSelector(s.db, p.selector);
    assert RowOk(p.stored.capability, HistoryOf(s.db, p.stored.id));
  }

  // ---------------------------------------------------------------- replacements

  lemma ReplacerWasThere(s: State, a: Action, j: Judgement, p: int)
    requires p in ReplacersAfter(s, a, j) && !ReplacersAfter(s, a, j)[p].Finished?
    ensures var request := ReplacersAfter(s, a, j)[p].request;
            if p in s.replacers then !s.replacers[p].Finished? && s.replacers[p].request == request
            else a == Submit(p, request)
  {
  }

  /** The request a replacer works on is the one submitted to it. */
  lemma {:induction false} WasSubmitted(run: Run, k: nat, p: int) returns (n: nat)
    requires IsRun(run) && k < |run.states| && p in run.states[k].replacers && !run.states[k].replacers[p].Finished?
    ensures n < k && run.actions[n] == Submit(p, run.states[k].replacers[p].request)
    decreases k
  {
    var s, a := run.states[k - 1], run.actions[k - 1];
    assert StepsAt(run, k - 1);
    ReplacerWasThere(s, a, JudgementOf(s, a), p);
    if p in s.replacers { n := WasSubmitted(run, k - 1, p); } else { n := k - 1; }
  }

  /** What an event says of the request that caused it, when it was the i-th. */
  ghost predicate Records(e: Event, request: Replacement, i: nat) {
    && e.reason == request.reason && e.actor == (if request.actor == "" then None else Some(request.actor))
    && e.after.name == request.policy.name && e.after.version == request.policy.version
    && e.after.revision == i + 2 && e.after.git == request.policy.git
    && (forall grant :: grant in e.after.grants <==> grant in request.policy.grants)
  }

  /** Every event of a history was submitted, with this policy, reason and actor, and committed. */
  lemma {:induction false} EventWasSubmitted(run: Run, k: nat, id: string, i: nat) returns (n: nat, m: nat)
    requires IsRun(run) && k < |run.states| && i < |HistoryOf(run.states[k].db, id)|
    ensures n < m < k && run.actions[n].Submit? && run.actions[n].request.capabilityId == id
    ensures run.actions[m] == Replace(run.actions[n].p, Commit)
    ensures Records(HistoryOf(run.states[k].db, id)[i], run.actions[n].request, i)
    decreases k
  {
    var s, a := run.states[k - 1], run.actions[k - 1];
    assert StepsAt(run, k - 1);
    EveryRunKeepsInv(run, k - 1);
    EventStays(s, a, JudgementOf(s, a), id, i);
    if i < |HistoryOf(s.db, id)| {
      n, m := EventWasSubmitted(run, k - 1, id, i);
    } else {
      m := k - 1;
      n := WasSubmitted(run, m, a.p);
      CommitRecords(s, a, JudgementOf(s, a), id);
    }
  }

  lemma EventStays(s: State, a: Action, j: Judgement, id: string, i: nat)
    requires LocksOk(s) && i < |HistoryOf(TablesAfter(s, a, j), id)|
    ensures if i < |HistoryOf(s.db, id)| then HistoryOf(TablesAfter(s, a, j), id)[i] == HistoryOf(s.db, id)[i]
            else Writes(s, a, j, id) && i == |HistoryOf(s.db, id)|
  {
  }

  lemma ReplacedRecords(db: Database, view: Capability, request: Replacement, at: int, direction: Direction)
    requires request.capabilityId in db.capabilities && view.revision == 1 + |HistoryOf(db, request.capabilityId)|
    ensures var before := HistoryOf(db, request.capabilityId);
            var after := HistoryOf(Replaced(db, view, request, at, direction), request.capabilityId);
            |after| == |before| + 1 && Records(after[|before|], request, |before|)
  {
    RepresentLists(request.policy, view.revision + 1);
  }

  lemma CommitRecords(s: State, a: Action, j: Judgement, id: string)
    requires LocksOk(s) && RowsOk(s.db) && Writes(s, a, j, id)
    ensures |HistoryOf(TablesAfter(s, a, j), id)| == |HistoryOf(s.db, id)| + 1
    ensures var n := |HistoryOf(s.db, id)|;
            Records(HistoryOf(TablesAfter(s, a, j), id)[n], s.replacers[a.p].request, n)
  {
    var t := s.replacers[a.p];
    assert HolderOk(s.db.capabilities, s.locks, s.dbClock, a.p, t);
    assert RowOk(s.db.capabilities[id], HistoryOf(s.db, id));
    ReplacedRecords(s.db, t.view, t.request, t.at, j.direction);
  }

  /** A replacement that reports a change has committed one, and one that reports none has not. */
  lemma {:induction false} ReportsAreTrue(run: Run, k: nat, p: int)
    requires IsRun(run) && k < |run.states| && p in run.states[k].replacers && run.states[k].replacers[p].Finished?
    ensures run.states[k].replacers[p].changed <==>
            exists m: nat :: m < k && run.actions[m] == Replace(p, Commit) && run.states[m + 1].db != run.states[m].db
    decreases k
  {
    var s, a := run.states[k - 1], run.actions[k - 1];
    assert StepsAt(run, k - 1);
    EveryRunKeepsInv(run, k - 1);
    if p in s.replacers && s.replacers[p].Finished? {
      ReportsAreTrue(run, k - 1, p);
      FinishedIsDone(s, a, JudgementOf(s, a), p);
    } else {
      NothingCommittedYet(run, k - 1, p);
      FinishReports(s, a, JudgementOf(s, a), p);
    }
  }

  lemma FinishedIsDone(s: State, a: Action, j: Judgement, p: int)
    requires p in s.replacers && s.replacers[p].Finished?
    ensures p in ReplacersAfter(s, a, j) && ReplacersAfter(s, a, j)[p] == s.replacers[p]
    ensures a == Replace(p, Commit) ==> TablesAfter(s, a, j) == s.db
  {
  }

  lemma FinishReports(s: State, a: Action, j: Judgement, p: int)
    requires LocksOk(s) && p in ReplacersAfter(s, a, j) && ReplacersAfter(s, a, j)[p].Finished?
    requires p in s.replacers ==> !s.replacers[p].Finished?
    requires RowsOk(s.db)
    ensures ReplacersAfter(s, a, j)[p].changed <==> a == Replace(p, Commit) && TablesAfter(s, a, j) != s.db
  {
    if p in s.replacers {
      assert HolderOk(s.db.capabilities, s.locks, s.dbClock, p, s.replacers[p]);
      if a == Replace(p, Commit) && j.Change? && s.replacers[p].Timed? {
        CommitRecords(s, a, j, s.replacers[p].request.capabilityId);
      }
    }
  }

  /** Before a replacer has finished it has committed nothing. */
  lemma {:induction false} NothingCommittedYet(run: Run, k: nat, p: int)
    requires IsRun(run) && k < |run.states| && (p in run.states[k].replacers ==> !run.states[k].replacers[p].Finished?)
    ensures forall m: nat :: m < k && run.actions[m] == Replace(p, Commit) ==> run.states[m + 1].db == run.states[m].db
    decreases k
  {
    if k > 0 {
      var s, a := run.states[k - 1], run.actions[k - 1];
      assert StepsAt(run, k - 1);
      NotYetFinished(s, a, JudgementOf(s, a), p);
      NothingCommittedYet(run, k - 1, p);
    }
  }

  lemma NotYetFinished(s: State, a: Action, j: Judgement, p: int)
    requires p in ReplacersAfter(s, a, j) ==> !ReplacersAfter(s, a, j)[p].Finished?
    ensures p in s.replacers ==> !s.replacers[p].Finished?
    ensures a == Replace(p, Commit) ==> TablesAfter(s, a, j) == s.db
  {
  }

  /** The steps of a replacement come one right after the other, from k on. */
  predicate Unhindered(run: Run, k: nat, p: int, request: Replacement) {
    && k + 4 <= |run.actions|
    && run.actions[k] == Submit(p, request) && run.actions[k + 1] == Replace(p, Lock)
    && run.actions[k + 2] == Replace(p, ReadClock) && run.actions[k + 3] == Replace(p, Commit)
  }

  /** What a replacement needs in order to be written: a complete request for a supported policy that
      differs from the one in force, on a capability that is neither revoked nor expired. */
  predicate Replaceable(s: State, request: Replacement) {
    && request.capabilityId in s.db.capabilities && request.capabilityId != "" && request.reason != ""
    && ValidPolicy(request.policy) && request.policy != s.db.capabilities[request.capabilityId].policy
    && IsAlive(s.db, request.capabilityId, s.dbClock)
  }

  lemma JudgeIsExact(view: Capability, request: Replacement, at: int)
    requires ValidPolicy(view.policy) && ValidPolicy(request.policy)
    ensures Judge(view, request, at).Change? <==>
            && view.revokedAt.None? && (view.expiresAt.Some? ==> at < view.expiresAt.value)
            && request.policy != view.policy
  {
    ValidRepresentsGenuine(view.policy, view.revision);
    UnchangedMeansEqual(view.policy, request.policy);
  }

  /** The first three steps leave the tables alone and the replacer ready to commit, if there is a row. */
  lemma ReadyToCommit(run: Run, k: nat, p: int, request: Replacement)
    requires IsRun(run) && Unhindered(run, k, p, request) && p !in run.states[k].replacers
    requires request.capabilityId !in run.states[k].locks
    ensures var s, t, id := run.states[k], run.states[k + 3], request.capabilityId;
            && t.db == s.db && t.dbClock == s.dbClock
            && if Complete(request).None? && id in s.db.capabilities
               then p in t.replacers && t.replacers[p] == Timed(request, s.db.capabilities[id], s.dbClock)
               else if Complete(request).None? then p in t.replacers && t.replacers[p] == Finished(false)
               else p !in t.replacers
  {
    assert StepsAt(run, k);
    assert StepsAt(run, k + 1);
    assert StepsAt(run, k + 2);
  }

  lemma CommitWrites(s: State, p: int)
    requires LocksOk(s) && RowsOk(s.db) && p in s.replacers
    ensures var t := s.replacers[p];
            var after := TablesAfter(s, Replace(p, Commit), JudgementOf(s, Replace(p, Commit)));
            if t.Timed? && Replaceable(s.(dbClock := t.at), t.request)
            then var id := t.request.capabilityId;
                 && id in after.capabilities
                 && after.capabilities[id] == s.db.capabilities[id].(
                      policy := t.request.policy, revision := s.db.capabilities[id].revision + 1,
                      policyUpdatedAt := t.at)
            else after == s.db
    ensures var t := s.replacers[p];
            t.Timed? ==>
              ReplacerNext(s, t, Commit, JudgementOf(s, Replace(p, Commit))) ==
              Finished(Replaceable(s.(dbClock := t.at), t.request))
  {
    var t := s.replacers[p];
    assert HolderOk(s.db.capabilities, s.locks, s.dbClock, p, t);
    if t.Timed? {
      assert RowOk(t.view, HistoryOf(s.db, t.request.capabilityId));
      JudgeIsExact(t.view, t.request, t.at);
    }
  }

  /** An unhindered replacement of an unlocked capability puts its policy in force, one revision on, if and
      only if it is replaceable; otherwise the tables stay as they are. */
  lemma UnhinderedIsWritten(run: Run, k: nat, p: int, request: Replacement)
    requires IsRun(run) && Unhindered(run, k, p, request) && p !in run.states[k].replacers
    requires request.capabilityId !in run.states[k].locks
    ensures var s, t, id := run.states[k], run.states[k + 4], request.capabilityId;
            if Replaceable(s, request)
            then id in t.db.capabilities
                 && t.db.capabilities[id] == s.db.capabilities[id].(
                      policy := request.policy, revision := s.db.capabilities[id].revision + 1,
                      policyUpdatedAt := s.dbClock)
            else t.db == s.db
    ensures Complete(request).None? ==>
              && p in run.states[k + 4].replacers
              && run.states[k + 4].replacers[p] == Finished(Replaceable(run.states[k], request))
  {
    ReadyToCommit(run, k, p, request);
    assert StepsAt(run, k + 3);
    if p in run.states[k + 3].replacers {
      EveryRunKeepsInv(run, k + 3);
      CommitWrites(run.states[k + 3], p);
    }
  }
}
