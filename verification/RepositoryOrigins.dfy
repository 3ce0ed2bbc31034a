/**
 * Where the answers of concurrent resolutions come from, told by the actions of the run alone: the calls that
 * were made, and the responses that upstream gave.
 */
module RepositoryOrigins {
  import opened Wrappers
  import opened Repositories
  import opened RepositoryCache
  import opened RepositoryResolution

  // ---------------------------------------------------------------- the call behind a process

  /** The action that began process `i` for `credentialId`. */
  ghost predicate BegunFor(run: Run, j: nat, i: int, credentialId: string) {
    && j < |run.actions|
    && ((run.actions[j].Start? && run.actions[j].i == i && run.actions[j].credentialId == credentialId)
        || (run.actions[j].StartByName? && run.actions[j].i == i && run.actions[j].credentialId == credentialId))
  }

  /** A process works on the call with which it was begun: by identity, or by a name with perhaps an expected
      identity. */
  ghost predicate Works(run: Run, j: nat, i: int, p: Process)
    requires IsRun(run)
  {
    && j < |run.actions|
    && match p
       case Failed => true
       case Naming(credentialId, expectedId, begunAt) =>
         run.actions[j] == StartByName(i, credentialId, expectedId) && run.states[j].now == begunAt
       case _ =>
         && run.states[j].now == p.call.begunAt
         && (run.actions[j] == Start(i, p.call.credentialId, p.call.target, p.call.revalidate)
             || (p.call.revalidate
                 && (run.actions[j] == StartByName(i, p.call.credentialId, None)
                     || run.actions[j] == StartByName(i, p.call.credentialId, Some(p.call.target.id)))))
  }

  lemma MoveKeepsWork(run: Run, j: nat, config: Config, s: State, i: int, p: Process, move: Move)
    requires IsRun(run) && Works(run, j, i, p)
    ensures Works(run, j, i, ProcessNext(config, s, i, p, move))
  {
  }

  lemma {:induction false} WasBegun(run: Run, k: nat, i: int) returns (j: nat)
    requires IsRun(run) && k < |run.states| && i in run.states[k].processes
    ensures j < k && Works(run, j, i, run.states[k].processes[i])
    decreases k
  {
    var s, a := run.states[k - 1], run.actions[k - 1];
    assert StepsAt(run, k - 1);
    if i in s.processes {
      j := WasBegun(run, k - 1, i);
      if a.Proceed? && a.i == i { MoveKeepsWork(run, j, run.config, s, i, s.processes[i], a.move); }
    } else {
      j := k - 1;
    }
  }

  // ---------------------------------------------------------------- the facts behind an answer

  /** The same repository in every field but the time of its validation. */
  predicate Alike(a: Repository, b: Repository) {
    a.id == b.id && a.owner == b.owner && a.name == b.name && a.defaultBranch == b.defaultBranch && a.etag == b.etag
  }

  /** Complete metadata that say exactly this. */
  predicate Describes(m: Response, r: Repository) {
    && m.Metadata? && m.singleJsonValue
    && m.id == r.id > 0 && m.owner == r.owner != "" && m.name == r.name != ""
    && m.defaultBranch == r.defaultBranch != "" && m.etag == r.etag
  }

  /** A call handed the observation over, as the persisted one of its credential. */
  ghost predicate HandedOver(run: Run, j: nat, credentialId: string, r: Repository) {
    && j < |run.actions| && run.actions[j].Start? && run.actions[j].credentialId == credentialId
    && Alike(run.actions[j].target, r)
  }

  /** Upstream reported it to a process begun for the credential. */
  ghost predicate Reported(run: Run, j: nat, credentialId: string, r: Repository) {
    && j < |run.actions| && run.actions[j].Proceed? && run.actions[j].move.Respond? && run.actions[j].move.endpoint
    && (exists b: nat :: b < j && BegunFor(run, b, run.actions[j].i, credentialId))
    && (exists m :: Ends(run.actions[j].move.first, run.actions[j].move.second, m) && Describes(m, r))
  }

  ghost predicate HasOrigin(run: Run, k: nat, credentialId: string, r: Repository) {
    exists j: nat :: j < k && (HandedOver(run, j, credentialId, r) || Reported(run, j, credentialId, r))
  }

  lemma OriginLasts(run: Run, k: nat, credentialId: string, r: Repository, s: Repository)
    requires k > 0 && HasOrigin(run, k - 1, credentialId, r) && Alike(r, s)
    ensures HasOrigin(run, k, credentialId, s)
  {
    var j: nat :| j < k - 1 && (HandedOver(run, j, credentialId, r) || Reported(run, j, credentialId, r));
    if Reported(run, j, credentialId, r) {
      var m :| Ends(run.actions[j].move.first, run.actions[j].move.second, m) && Describes(m, r);
      assert Describes(m, s);
      assert Reported(run, j, credentialId, s);
    } else {
      assert HandedOver(run, j, credentialId, s);
    }
  }

  /** What the response behind a newly validated observation was. */
  lemma ValidatedTells(config: Config, s: State, i: int, p: Process, move: Move)
    requires !p.Validated? && ProcessNext(config, s, i, p, move).Validated?
    ensures var q := ProcessNext(config, s, i, p, move);
            && move.Respond? && move.endpoint
            && q.repository.id == q.call.target.id
            && ((p.Fetching? && q.call == p.call) || (p.Naming? && q.call.credentialId == p.credentialId))
            && exists m :: Ends(move.first, move.second, m)
                 && (Describes(m, q.repository) || (m.NotModified? && p.Fetching? && Alike(p.base, q.repository)))
  {
    var q := ProcessNext(config, s, i, p, move);
    var base := if p.Fetching? then p.base else Repository(0, "", "", "", "", 0);
    FetchedTells(move.first, move.second, base, s.now);
    assert Answers(move.first, move.second, base, s.now, q.repository);
  }

  /** Where an observation that was just validated comes from, given where everything before did. */
  lemma ValidatedHasOrigin(run: Run, k: nat, m: Response)
    requires IsRun(run) && 0 < k < |run.states| && run.actions[k - 1].Proceed?
    requires var s, a := run.states[k - 1], run.actions[k - 1];
             && a.i in s.processes && !s.processes[a.i].Validated?
             && ProcessNext(run.config, s, a.i, s.processes[a.i], a.move).Validated?
             && a.move.Respond? && a.move.endpoint
             && Ends(a.move.first, a.move.second, m)
             && Describes(m, ProcessNext(run.config, s, a.i, s.processes[a.i], a.move).repository)
    ensures var q := ProcessNext(run.config, run.states[k - 1], run.actions[k - 1].i,
                                 run.states[k - 1].processes[run.actions[k - 1].i], run.actions[k - 1].move);
            HasOrigin(run, k, q.call.credentialId, q.repository)
  {
    var s, a := run.states[k - 1], run.actions[k - 1];
    var q := ProcessNext(run.config, s, a.i, s.processes[a.i], a.move);
    ValidatedTells(run.config, s, a.i, s.processes[a.i], a.move);
    var b := WasBegun(run, k - 1, a.i);
    assert BegunFor(run, b, a.i, q.call.credentialId);
    assert Reported(run, k - 1, q.call.credentialId, q.repository);
  }

  lemma {:induction false} SeenHasOrigin(run: Run, k: nat, credentialId: string, r: Repository)
    requires IsRun(run) && k < |run.states| && (credentialId, r) in run.states[k].seen
    ensures HasOrigin(run, k, credentialId, r)
    decreases k
  {
    var s, a := run.states[k - 1], run.actions[k - 1];
    assert StepsAt(run, k - 1);
    EveryRunKeepsInv(run, k - 1);
    if (credentialId, r) in s.seen {
      SeenHasOrigin(run, k - 1, credentialId, r);
      OriginLasts(run, k, credentialId, r, r);
    } else if a.Start? {
      assert HandedOver(run, k - 1, credentialId, r);
    } else {
      var p := s.processes[a.i];
      assert ProcessOk(run.config, s.seen, s.now, p);
      ValidatedTells(run.config, s, a.i, p, a.move);
      var m :| Ends(a.move.first, a.move.second, m)
               && (Describes(m, r) || (m.NotModified? && p.Fetching? && Alike(p.base, r)));
      if Describes(m, r) {
        ValidatedHasOrigin(run, k, m);
      } else {
        SeenHasOrigin(run, k - 1, credentialId, p.base);
        OriginLasts(run, k, credentialId, p.base, r);
      }
    }
  }

  /** Every answer goes back to its call: it has the identity asked for, and its owner, name, default branch
      and etag are those of complete metadata that upstream reported to a process of the same credential, or
      of an observation that a call of that credential handed over. */
  lemma EveryAnswerHasAnOrigin(run: Run, k: nat, i: int) returns (j: nat)
    requires IsRun(run) && k < |run.states| && i in run.states[k].processes && run.states[k].processes[i].Done?
    ensures var p := run.states[k].processes[i];
            && j < k && BegunFor(run, j, i, p.call.credentialId)
            && (run.actions[j].Start? ==> p.repository.id == run.actions[j].target.id)
            && (run.actions[j].StartByName? ==> run.actions[j].expectedId in {None, Some(p.repository.id)})
            && HasOrigin(run, k, p.call.credentialId, p.repository)
  {
    var p := run.states[k].processes[i];
    EveryResolutionIsSound(run, k, i);
    SeenHasOrigin(run, k, p.call.credentialId, p.repository);
    j := WasBegun(run, k, i);
  }

  // ---------------------------------------------------------------- why a resolution fails

  /** An upstream answer that is none for the identity asked for. */
  ghost predicate Refuses(s: State, i: int, move: Move) {
    && move.Respond? && i in s.processes
    && match s.processes[i]
       case Fetching(call, base, _) =>
         !(move.endpoint
           && exists r: Repository :: r.id == call.target.id && Answers(move.first, move.second, base, s.now, r))
       case Naming(_, expectedId, _) =>
         !(move.endpoint
           && exists r: Repository :: expectedId in {None, Some(r.id)}
                && Answers(move.first, move.second, Repository(0, "", "", "", "", 0), s.now, r))
       case _ => false
  }

  /** The action leaves a call without a positive identity or a credential, or meets a refusal. */
  ghost predicate Causes(run: Run, j: nat)
    requires IsRun(run) && j < |run.actions|
  {
    var s, a := run.states[j], run.actions[j];
    && a.Proceed? && a.i in s.processes
    && (Refuses(s, a.i, a.move)
        || (s.processes[a.i].Started?
            && (s.processes[a.i].call.target.id <= 0 || s.processes[a.i].call.credentialId == "")))
  }

  lemma MoveFails(config: Config, s: State, i: int, p: Process, move: Move)
    requires i in s.processes && s.processes[i] == p && !p.Failed? && ProcessNext(config, s, i, p, move).Failed?
    ensures || Refuses(s, i, move)
            || (p.Started? && (p.call.target.id <= 0 || p.call.credentialId == ""))
            || (p.Waiting? && p.leader in s.processes && s.processes[p.leader].Failed?)
  {
    if move.Respond? {
      var base := if p.Fetching? then p.base else Repository(0, "", "", "", "", 0);
      FetchedTells(move.first, move.second, base, s.now);
    }
  }

  /** No resolution fails without a cause: its call, or that of the flight it joined, was improper, or
      upstream had no answer for it. */
  lemma {:induction false} FailureHasCause(run: Run, k: nat, i: int) returns (j: nat)
    requires IsRun(run) && k < |run.states| && i in run.states[k].processes && run.states[k].processes[i].Failed?
    ensures j < k && Causes(run, j)
    decreases k
  {
    var s, a := run.states[k - 1], run.actions[k - 1];
    assert StepsAt(run, k - 1);
    if i in s.processes && s.processes[i].Failed? {
      j := FailureHasCause(run, k - 1, i);
    } else {
      MoveFails(run.config, s, i, s.processes[i], a.move);
      if Refuses(s, i, a.move) || s.processes[i].Started? {
        j := k - 1;
      } else {
        j := FailureHasCause(run, k - 1, s.processes[i].leader);
      }
    }
  }

  // ---------------------------------------------------------------- one flight for each key

  /** Every leader is the one whose flight is open under its key. */
  ghost predicate LeadersFly(s: State) {
    forall i :: i in s.processes && Leads(s.processes[i]) ==>
      var call := s.processes[i].call;
      Proper(call) && KeyOf(call) in s.flights && s.flights[KeyOf(call)] == i
  }

  lemma LeadersKeepFlying(config: Config, s: State, a: Action, i: int)
    requires LeadersFly(s) && i in Step(config, s, a).processes && Leads(Step(config, s, a).processes[i])
    ensures var t := Step(config, s, a);
            var call := t.processes[i].call;
            Proper(call) && KeyOf(call) in t.flights && t.flights[KeyOf(call)] == i
  {
    if a.Proceed? && a.i in s.processes && Leads(s.processes[a.i]) {
      LeaderMoves(config, s, a.i, s.processes[a.i], a.move);
    }
  }

  lemma {:induction false} LeadersAlwaysFly(run: Run, k: nat)
    requires IsRun(run) && k < |run.states|
    ensures LeadersFly(run.states[k])
  {
    if k > 0 {
      LeadersAlwaysFly(run, k - 1);
      assert StepsAt(run, k - 1);
      forall i | i in run.states[k].processes && Leads(run.states[k].processes[i])
        ensures var call := run.states[k].processes[i].call;
                Proper(call) && KeyOf(call) in run.states[k].flights && run.states[k].flights[KeyOf(call)] == i
      {
        LeadersKeepFlying(run.config, run.states[k - 1], run.actions[k - 1], i);
      }
    }
  }

  /** Of the resolutions that may be answered from the cache, at most one at a time is on its way upstream for
      a credential and an identity. */
  lemma OneFlightAtATime(run: Run, k: nat, i: int, j: int)
    requires IsRun(run) && k < |run.states| && i in run.states[k].processes && j in run.states[k].processes
    requires var p, q := run.states[k].processes[i], run.states[k].processes[j];
             && p.Fetching? && q.Fetching? && !p.call.revalidate && !q.call.revalidate
             && p.call.credentialId == q.call.credentialId && p.call.target.id == q.call.target.id
    ensures i == j
  {
    LeadersAlwaysFly(run, k);
    CachedCallsLead(run, k, i);
    CachedCallsLead(run, k, j);
  }

  /** A resolution goes upstream without leading a flight only to revalidate. */
  lemma {:induction false} CachedCallsLead(run: Run, k: nat, i: int)
    requires IsRun(run) && k < |run.states| && i in run.states[k].processes
    requires run.states[k].processes[i].Fetching? && !run.states[k].processes[i].call.revalidate
    ensures Leads(run.states[k].processes[i])
    decreases k
  {
    assert StepsAt(run, k - 1);
    var s := run.states[k - 1];
    if i in s.processes && s.processes[i].Fetching? { CachedCallsLead(run, k - 1, i); }
  }
}
