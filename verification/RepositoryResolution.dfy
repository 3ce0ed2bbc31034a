/**
 * Concurrent repository resolution. Any number of resolutions, by identity or by name, share one
 * cache and one flight per key; each of their steps reads the clock for itself.
 *
 * The code reads the clock once to accept an observation and again to file it. `slack` bounds the
 * time between those two readings; with no slack the readings of one step are equal.
 */
module RepositoryResolution {
  import opened Wrappers
  import opened Strings
  import opened Repositories
  import opened RepositoryCache

  datatype Call = Call(credentialId: string, target: Repository, revalidate: bool, begunAt: int)

  datatype Process =
    | Started(call: Call)
    | Missed(call: Call)                                          // not in the cache
    | Trusting(call: Call, checkedAt: int)                        // persisted observation accepted, not yet filed
    | Leading(call: Call)                                         // runs the flight of its key
    | Waiting(call: Call, leader: int)
    | Fetching(call: Call, base: Repository, leads: bool)
    | Naming(credentialId: string, expectedId: Option<int>, begunAt: int)
    | Validated(call: Call, repository: Repository, leads: bool)  // answered upstream, not yet filed
    | Done(call: Call, repository: Repository, decidedAt: int, trips: nat)
    | Failed

  datatype Config = Config(ttl: int, slack: nat)

  datatype State = State(
    cache: map<string, Entry>, flights: map<string, int>, now: int, processes: map<int, Process>,
    seen: set<(string, Repository)>)

  datatype Move =
    | LookUp
    | TrustPersisted
    | Join
    | Respond(endpoint: bool, first: Response, second: Response)
    | File
    | Receive

  datatype Action =
    | Tick(elapsed: nat)
    | Start(i: int, credentialId: string, target: Repository, revalidate: bool)
    | StartByName(i: int, credentialId: string, expectedId: Option<int>)
    | Proceed(i: int, move: Move)

  const INITIAL := State(map[], map[], 0, map[], {})

  function KeyOf(call: Call): string
    requires call.target.id > 0
  {
    CacheKey(call.credentialId, call.target.id)
  }

  /** Calls without a credential or a positive identity fail at once. */
  predicate Proper(call: Call) {
    call.target.id > 0 && call.credentialId != ""
  }

  /** Where resolveCurrent starts from: the cached observation, expired or not, else the target. */
  function BaseOf(cache: map<string, Entry>, call: Call): Repository
    requires Proper(call)
  {
    if KeyOf(call) in cache then cache[KeyOf(call)].repository else call.target
  }

  /** The observation a process is about to file, and when it was accepted. */
  predicate Files(config: Config, p: Process, now: int) {
    || (p.Trusting? && now <= p.checkedAt + config.slack)
    || (p.Validated? && now <= p.repository.validatedAt + config.slack)
  }

  function ProcessNext(config: Config, s: State, i: int, p: Process, move: Move): Process {
    match move
    case LookUp =>
      if (p.Started? || p.Leading?) && Proper(p.call) then
        if p.Started? && p.call.revalidate then Fetching(p.call, BaseOf(s.cache, p.call), false)
        else
          var hit := Lookup(s.cache, KeyOf(p.call), s.now);
          if hit.Some? then Done(p.call, hit.value, s.now, 0)
          else if p.Started? then Missed(p.call)
          else Fetching(p.call, BaseOf(s.cache, p.call), true)
      else if p.Started? then Failed
      else p
    case TrustPersisted =>
      if p.Missed? && p.call.target.validatedAt != 0 && s.now < p.call.target.validatedAt + config.ttl
      then Trusting(p.call, s.now) else p
    case Join =>
      if p.Missed? && Proper(p.call) then
        if KeyOf(p.call) in s.flights then Waiting(p.call, s.flights[KeyOf(p.call)]) else Leading(p.call)
      else p
    case Respond(endpoint, first, second) =>
      if p.Fetching? then
        var r := if endpoint then Fetched(first, second, p.base, s.now) else None;
        if r.Some? && r.value.id == p.call.target.id then Validated(p.call, r.value, p.leads) else Failed
      else if p.Naming? then
        var r := if endpoint then Fetched(first, second, Repository(0, "", "", "", "", 0), s.now) else None;
        if r.Some? && p.expectedId in {None, Some(r.value.id)}
        then Validated(Call(p.credentialId, r.value, true, p.begunAt), r.value, false)
        else Failed
      else p
    case File =>
      if !Files(config, p, s.now) then p
      else if p.Trusting? then Done(p.call, p.call.target, p.checkedAt, 0)
      else Done(p.call, p.repository, p.repository.validatedAt, 1)
    case Receive =>
      if p.Waiting? && p.leader in s.processes then
        var leader := s.processes[p.leader];
        if leader.Done? then Done(p.call, leader.repository, leader.decidedAt, leader.trips)
        else if leader.Failed? then Failed
        else p
      else p
  }

  function ProcessesAfter(config: Config, s: State, a: Action): map<int, Process> {
    match a
    case Tick(_) => s.processes
    case Start(i, credentialId, target, revalidate) =>
      if i in s.processes then s.processes else s.processes[i := Started(Call(credentialId, target, revalidate, s.now))]
    case StartByName(i, credentialId, expectedId) =>
      if i in s.processes then s.processes else s.processes[i := Naming(credentialId, expectedId, s.now)]
    case Proceed(i, move) =>
      if i in s.processes then s.processes[i := ProcessNext(config, s, i, s.processes[i], move)] else s.processes
  }

  function CacheAfter(config: Config, s: State, a: Action): map<string, Entry> {
    if a.Proceed? && a.move.File? && a.i in s.processes && Files(config, s.processes[a.i], s.now) then
      var p := s.processes[a.i];
      Stored(s.cache, p.call.credentialId, if p.Trusting? then p.call.target else p.repository, s.now, config.ttl)
    else s.cache
  }

  predicate Leads(p: Process) {
    p.Leading? || (p.Fetching? && p.leads) || (p.Validated? && p.leads)
  }

  /** A flight opens when a process becomes leader and closes when that leader is finished. */
  function FlightsAfter(config: Config, s: State, a: Action): map<string, int> {
    if a.Proceed? && a.i in s.processes then
      var p, q := s.processes[a.i], ProcessNext(config, s, a.i, s.processes[a.i], a.move);
      if q.Leading? && !p.Leading? && Proper(q.call) then s.flights[KeyOf(q.call) := a.i]
      else if Leads(p) && !Leads(q) && Proper(p.call) then s.flights - {KeyOf(p.call)}
      else s.flights
    else s.flights
  }

  /** Observations validated through a credential, or handed over as its persisted ones. */
  function SeenAfter(config: Config, s: State, a: Action): set<(string, Repository)> {
    match a
    case Start(i, credentialId, target, _) => s.seen + {(credentialId, target)}
    case Proceed(i, move) =>
      if i in s.processes && ProcessNext(config, s, i, s.processes[i], move).Validated? then
        var q := ProcessNext(config, s, i, s.processes[i], move);
        s.seen + {(q.call.credentialId, q.repository)}
      else s.seen
    case _ => s.seen
  }

  function Step(config: Config, s: State, a: Action): State {
    State(CacheAfter(config, s, a), FlightsAfter(config, s, a), if a.Tick? then s.now + a.elapsed else s.now,
          ProcessesAfter(config, s, a), SeenAfter(config, s, a))
  }

  datatype Run = Run(config: Config, states: seq<State>, actions: seq<Action>)

  ghost predicate StepsAt(run: Run, k: nat)
    requires k < |run.actions| && |run.states| == |run.actions| + 1
  {
    run.states[k + 1] == Step(run.config, run.states[k], run.actions[k])
  }

  ghost predicate IsRun(run: Run) {
    && run.config.ttl > 0
    && |run.states| == |run.actions| + 1 && run.states[0] == INITIAL
    && forall k :: 0 <= k < |run.actions| ==> StepsAt(run, k)
  }

  // ---------------------------------------------------------------- what every run keeps

  function Horizon(config: Config): int {
    2 * config.ttl + config.slack
  }

  /** What a finished resolution promises its caller. */
  ghost predicate Sound(config: Config, seen: set<(string, Repository)>, now: int, p: Process)
    requires p.Done?
  {
    && p.repository.id == p.call.target.id
    && (p.call.credentialId, p.repository) in seen
    && p.decidedAt <= now && p.decidedAt - p.repository.validatedAt < Horizon(config)
    && (p.call.revalidate ==> p.trips >= 1 && p.call.begunAt <= p.repository.validatedAt == p.decidedAt)
  }

  ghost predicate ProcessOk(config: Config, seen: set<(string, Repository)>, now: int, p: Process) {
    match p
    case Started(call) => (call.credentialId, call.target) in seen && call.begunAt <= now
    case Missed(call) =>
      Proper(call) && !call.revalidate && call.begunAt <= now && (call.credentialId, call.target) in seen
    case Trusting(call, checkedAt) =>
      && Proper(call) && !call.revalidate && (call.credentialId, call.target) in seen
      && checkedAt <= now && checkedAt < call.target.validatedAt + config.ttl
    case Leading(call) =>
      Proper(call) && !call.revalidate && call.begunAt <= now && (call.credentialId, call.target) in seen
    case Waiting(call, _) => Proper(call) && !call.revalidate
    case Fetching(call, base, leads) =>
      && Proper(call) && call.begunAt <= now && (leads ==> !call.revalidate)
      && (call.credentialId, base) in seen && base.id == call.target.id
    case Naming(_, _, begunAt) => begunAt <= now
    case Validated(call, repository, leads) =>
      && call.target.id > 0 && repository.id == call.target.id && (call.credentialId, repository) in seen
      && call.begunAt <= repository.validatedAt <= now && (leads ==> Proper(call) && !call.revalidate)
    case Done(_, _, _, _) => Sound(config, seen, now, p)
    case Failed => true
  }

  predicate Ended(p: Process) {
    p.Done? || p.Failed?
  }

  /** A process that leads, or has led, the flight of a call. */
  predicate ServesFlight(p: Process, call: Call) {
    || p.Failed?
    || ((Leads(p) || p.Done?) && p.call.credentialId == call.credentialId && p.call.target.id == call.target.id)
  }

  ghost predicate FlightsOk(s: State) {
    && (forall key :: key in s.flights ==>
          && s.flights[key] in s.processes && Leads(s.processes[s.flights[key]])
          && Proper(s.processes[s.flights[key]].call) && KeyOf(s.processes[s.flights[key]].call) == key)
    && (forall i :: i in s.processes && s.processes[i].Waiting? ==>
          s.processes[i].leader in s.processes && ServesFlight(s.processes[s.processes[i].leader], s.processes[i].call))
  }

  ghost predicate ProcessesOk(config: Config, s: State) {
    forall i :: i in s.processes ==> ProcessOk(config, s.seen, s.now, s.processes[i])
  }

  ghost predicate Inv(config: Config, s: State) {
    CacheOk(s.cache, s.seen, Horizon(config)) && ProcessesOk(config, s) && FlightsOk(s)
  }

  // ---------------------------------------------------------------- one step keeps it

  lemma LaterIsOk(
      config: Config, seen: set<(string, Repository)>, seen': set<(string, Repository)>, now: int, now': int,
      p: Process)
    requires ProcessOk(config, seen, now, p) && seen <= seen' && now <= now'
    ensures ProcessOk(config, seen', now', p)
  {
  }

  lemma LookUpIsOk(config: Config, s: State, i: int, p: Process)
    requires CacheOk(s.cache, s.seen, Horizon(config)) && ProcessOk(config, s.seen, s.now, p)
    ensures ProcessOk(config, s.seen, s.now, ProcessNext(config, s, i, p, LookUp))
  {
    if (p.Started? || p.Leading?) && Proper(p.call) && KeyOf(p.call) in s.cache {
      CachedIsOwn(s.cache, s.seen, Horizon(config), p.call.credentialId, p.call.target.id, s.now);
    }
  }

  lemma ReceiveIsOk(config: Config, s: State, i: int, p: Process)
    requires ProcessesOk(config, s) && FlightsOk(s) && i in s.processes && s.processes[i] == p
    ensures ProcessOk(config, s.seen, s.now, ProcessNext(config, s, i, p, Receive))
  {
    assert ProcessOk(config, s.seen, s.now, p);
    if p.Waiting? { assert ProcessOk(config, s.seen, s.now, s.processes[p.leader]); }
  }

  lemma NextIsOk(config: Config, s: State, i: int, p: Process, move: Move)
    requires config.ttl > 0 && CacheOk(s.cache, s.seen, Horizon(config)) && ProcessesOk(config, s) && FlightsOk(s)
    requires i in s.processes && s.processes[i] == p
    ensures var q := ProcessNext(config, s, i, p, move);
            ProcessOk(config, if q.Validated? then s.seen + {(q.call.credentialId, q.repository)} else s.seen, s.now, q)
  {
    assert ProcessOk(config, s.seen, s.now, p);
    var q := ProcessNext(config, s, i, p, move);
    if move.LookUp? {
      LookUpIsOk(config, s, i, p);
    } else if move.Receive? {
      ReceiveIsOk(config, s, i, p);
    }
    if q.Validated? && q == p {
      LaterIsOk(config, s.seen, s.seen + {(q.call.credentialId, q.repository)}, s.now, s.now, p);
    }
  }

  lemma StepKeepsProcesses(config: Config, s: State, a: Action)
    requires config.ttl > 0 && Inv(config, s)
    ensures ProcessesOk(config, Step(config, s, a))
  {
    var t := Step(config, s, a);
    forall i | i in t.processes
      ensures ProcessOk(config, t.seen, t.now, t.processes[i])
    {
      if a.Proceed? && a.i == i {
        NextIsOk(config, s, i, s.processes[i], a.move);
      } else if i in s.processes {
        LaterIsOk(config, s.seen, t.seen, s.now, t.now, s.processes[i]);
      }
    }
  }

  lemma StepKeepsCache(config: Config, s: State, a: Action)
    requires config.ttl > 0 && Inv(config, s)
    ensures CacheOk(CacheAfter(config, s, a), SeenAfter(config, s, a), Horizon(config))
  {
    WiderStillOk(s.cache, s.seen, SeenAfter(config, s, a), Horizon(config));
    if a.Proceed? && a.move.File? && a.i in s.processes && Files(config, s.processes[a.i], s.now) {
      var p := s.processes[a.i];
      assert ProcessOk(config, s.seen, s.now, p);
      StoredOk(s.cache, SeenAfter(config, s, a), Horizon(config), p.call.credentialId,
               if p.Trusting? then p.call.target else p.repository, s.now, config.ttl);
    }
  }

  /** Only a flight that is open is joined, and a leader leaves its flight only by finishing. */
  lemma LeaderMoves(config: Config, s: State, i: int, p: Process, move: Move)
    requires Leads(p)
    ensures var q := ProcessNext(config, s, i, p, move);
            Ended(q) || (Leads(q) && q.call == p.call)
  {
  }

  lemma StepKeepsFlights(config: Config, s: State, a: Action)
    requires Inv(config, s)
    ensures var t := Step(config, s, a);
            forall key :: key in t.flights ==>
              && t.flights[key] in t.processes && Leads(t.processes[t.flights[key]])
              && Proper(t.processes[t.flights[key]].call) && KeyOf(t.processes[t.flights[key]].call) == key
  {
    var t := Step(config, s, a);
    forall key | key in t.flights
      ensures t.flights[key] in t.processes && Leads(t.processes[t.flights[key]])
      ensures Proper(t.processes[t.flights[key]].call) && KeyOf(t.processes[t.flights[key]].call) == key
    {
      if a.Proceed? && a.i in s.processes && t.flights[key] == a.i && Leads(s.processes[a.i]) {
        LeaderMoves(config, s, a.i, s.processes[a.i], a.move);
      }
    }
  }

  lemma WaiterStaysServed(config: Config, s: State, a: Action, i: int)
    requires Inv(config, s) && i in Step(config, s, a).processes && Step(config, s, a).processes[i].Waiting?
    ensures var t := Step(config, s, a);
            && t.processes[i].leader in t.processes
            && ServesFlight(t.processes[t.processes[i].leader], t.processes[i].call)
  {
    var t := Step(config, s, a);
    var w := t.processes[i];
    assert i in s.processes;
    if !s.processes[i].Waiting? {
      assert a == Proceed(i, Join) && s.processes[i].Missed?;
      var leader := s.processes[s.flights[KeyOf(w.call)]];
      CacheKeyIsInjective(leader.call.credentialId, leader.call.target.id, w.call.credentialId, w.call.target.id);
    } else if a.Proceed? && a.i == w.leader && Leads(s.processes[w.leader]) {
      LeaderMoves(config, s, a.i, s.processes[a.i], a.move);
      EndedKeepsCall(config, s, a.i, s.processes[a.i], a.move);
    }
  }

  lemma EndedKeepsCall(config: Config, s: State, i: int, p: Process, move: Move)
    requires Leads(p)
    ensures var q := ProcessNext(config, s, i, p, move); q.Done? ==> q.call == p.call
  {
  }

  lemma StepKeepsInv(config: Config, s: State, a: Action)
    requires config.ttl > 0 && Inv(config, s)
    ensures Inv(config, Step(config, s, a))
  {
    StepKeepsProcesses(config, s, a);
    StepKeepsCache(config, s, a);
    StepKeepsFlights(config, s, a);
    forall i | i in Step(config, s, a).processes && Step(config, s, a).processes[i].Waiting?
      ensures var t := Step(config, s, a);
              && t.processes[i].leader in t.processes
              && ServesFlight(t.processes[t.processes[i].leader], t.processes[i].call)
    {
      WaiterStaysServed(config, s, a, i);
    }
  }

  lemma {:induction false} EveryRunKeepsInv(run: Run, k: nat)
    requires IsRun(run) && k < |run.states|
    ensures Inv(run.config, run.states[k])
  {
    if k > 0 {
      EveryRunKeepsInv(run, k - 1);
      assert StepsAt(run, k - 1);
      StepKeepsInv(run.config, run.states[k - 1], run.actions[k - 1]);
    }
  }

  // ---------------------------------------------------------------- main results

  /** Under every interleaving, a resolution that succeeds answers with its target's identity, with an
      observation made through its own credential, validated less than two TTLs (and the slack)
      before the answer was decided; and one that must revalidate went upstream after it began. */
  lemma EveryResolutionIsSound(run: Run, k: nat, i: int)
    requires IsRun(run) && k < |run.states| && i in run.states[k].processes && run.states[k].processes[i].Done?
    ensures Sound(run.config, run.states[k].seen, run.states[k].now, run.states[k].processes[i])
  {
    EveryRunKeepsInv(run, k);
    assert ProcessOk(run.config, run.states[k].seen, run.states[k].now, run.states[k].processes[i]);
  }

  function Last(run: Run): State
    requires run.states != []
  {
    run.states[|run.states| - 1]
  }

  /** Any action may come next. */
  lemma Extended(run: Run, a: Action) returns (longer: Run)
    requires IsRun(run)
    ensures IsRun(longer) && longer.config == run.config && longer.actions == run.actions + [a]
    ensures Last(longer) == Step(run.config, Last(run), a)
  {
    longer := Run(run.config, run.states + [Step(run.config, Last(run), a)], run.actions + [a]);
    forall k | 0 <= k < |longer.actions|
      ensures StepsAt(longer, k)
    {
      if k < |run.actions| { assert StepsAt(run, k); }
    }
  }

  /** The first half of the run below: the persisted observation is filed on its last second. */
  lemma FiledLate(target: Repository) returns (run: Run)
    requires target == Repository(7, "o", "n", "main", "", 100)
    ensures IsRun(run) && run.config == Config(30, 0) && Last(run).now == 129 && 2 !in Last(run).processes
    ensures CacheKey("c", 7) in Last(run).cache && Last(run).cache[CacheKey("c", 7)] == Entry(target, 159)
  {
    var call := Call("c", target, false, 129);
    run := Run(Config(30, 0), [INITIAL], []);
    run := Extended(run, Tick(129));
    run := Extended(run, Start(1, "c", target, false));
    assert Last(run).processes == map[1 := Started(call)] && Last(run).cache == map[];
    run := Extended(run, Proceed(1, LookUp));
    assert Last(run).processes == map[1 := Missed(call)];
    run := Extended(run, Proceed(1, TrustPersisted));
    assert Last(run).processes == map[1 := Trusting(call, 129)];
    run := Extended(run, Proceed(1, File));
  }

  /** The TTL alone is not the bound: with a TTL of 30 and no slack, an observation validated at 100
      is filed again at 129 and still served at 158, 58 after its validation. */
  lemma ServedAlmostTwiceTheTtl() returns (run: Run)
    ensures IsRun(run) && run.config == Config(30, 0)
    ensures 2 in Last(run).processes
    ensures var p := Last(run).processes[2]; p.Done? && p.decidedAt - p.repository.validatedAt == 58
  {
    var target := Repository(7, "o", "n", "main", "", 100);
    run := FiledLate(target);
    run := Extended(run, Tick(29));
    run := Extended(run, Start(2, "c", target, false));
    assert Last(run).processes[2] == Started(Call("c", target, false, 158));
    assert Lookup(Last(run).cache, CacheKey("c", 7), 158) == Some(target);
    run := Extended(run, Proceed(2, LookUp));
  }

  // ---------------------------------------------------------------- when one TTL is enough

  /** The action files a persisted observation that is older than the slack allows. */
  predicate TrustsLate(config: Config, s: State, a: Action) {
    && a.Proceed? && a.move.File? && a.i in s.processes
    && var p := s.processes[a.i];
    && p.Trusting? && Files(config, p, s.now) && p.call.target.validatedAt + config.slack < s.now
  }

  ghost predicate NeverTrustsLate(run: Run, k: nat)
    requires IsRun(run) && k <= |run.actions|
  {
    forall j :: 0 <= j < k ==> !TrustsLate(run.config, run.states[j], run.actions[j])
  }

  /** A finished resolution answered with an observation validated less than one TTL before. */
  predicate Young(config: Config, p: Process) {
    p.Done? ==> p.decidedAt - p.repository.validatedAt < config.ttl + config.slack
  }

  ghost predicate YoungInv(config: Config, s: State) {
    && CacheOk(s.cache, s.seen, config.ttl + config.slack + 1)
    && forall i :: i in s.processes ==> Young(config, s.processes[i])
  }

  lemma StepKeepsPrompt(config: Config, s: State, a: Action)
    requires config.ttl > 0 && Inv(config, s) && !TrustsLate(config, s, a)
    requires CacheOk(s.cache, s.seen, config.ttl + config.slack + 1)
    ensures CacheOk(CacheAfter(config, s, a), SeenAfter(config, s, a), config.ttl + config.slack + 1)
  {
    var horizon := config.ttl + config.slack + 1;
    WiderStillOk(s.cache, s.seen, SeenAfter(config, s, a), horizon);
    if a.Proceed? && a.move.File? && a.i in s.processes && Files(config, s.processes[a.i], s.now) {
      var p := s.processes[a.i];
      assert ProcessOk(config, s.seen, s.now, p);
      StoredOk(s.cache, SeenAfter(config, s, a), horizon, p.call.credentialId,
               if p.Trusting? then p.call.target else p.repository, s.now, config.ttl);
    }
  }

  lemma NextIsYoung(config: Config, s: State, i: int, p: Process, move: Move)
    requires config.ttl > 0 && Inv(config, s) && YoungInv(config, s) && i in s.processes && s.processes[i] == p
    ensures Young(config, ProcessNext(config, s, i, p, move))
  {
    assert ProcessOk(config, s.seen, s.now, p) && Young(config, p);
    if move.LookUp? && (p.Started? || p.Leading?) && Proper(p.call) && KeyOf(p.call) in s.cache {
      CachedIsOwn(s.cache, s.seen, config.ttl + config.slack + 1, p.call.credentialId, p.call.target.id, s.now);
    }
    if move.Receive? && p.Waiting? && p.leader in s.processes { assert Young(config, s.processes[p.leader]); }
  }

  lemma {:induction false} PromptRunIsYoung(run: Run, k: nat)
    requires IsRun(run) && k < |run.states| && NeverTrustsLate(run, k)
    ensures YoungInv(run.config, run.states[k])
  {
    if k > 0 {
      var s, a := run.states[k - 1], run.actions[k - 1];
      PromptRunIsYoung(run, k - 1);
      EveryRunKeepsInv(run, k - 1);
      assert StepsAt(run, k - 1);
      StepKeepsPrompt(run.config, s, a);
      forall i | i in run.states[k].processes
        ensures Young(run.config, run.states[k].processes[i])
      {
        if a.Proceed? && a.i == i { NextIsYoung(run.config, s, i, s.processes[i], a.move); }
      }
    }
  }

  /** As long as no persisted observation was trusted late, every answer, under every interleaving, was
      validated less than one TTL (and the slack) before it was decided. */
  lemma PromptAnswersAreYoung(run: Run, k: nat, i: int)
    requires IsRun(run) && k < |run.states| && NeverTrustsLate(run, k)
    requires i in run.states[k].processes && run.states[k].processes[i].Done?
    ensures Young(run.config, run.states[k].processes[i])
  {
    PromptRunIsYoung(run, k);
  }

  lemma CutShort(run: Run, k: nat) returns (shorter: Run)
    requires IsRun(run) && k < |run.states|
    ensures IsRun(shorter) && shorter == Run(run.config, run.states[..k + 1], run.actions[..k])
  {
    shorter := Run(run.config, run.states[..k + 1], run.actions[..k]);
    forall j | 0 <= j < k
      ensures StepsAt(shorter, j)
    {
      assert StepsAt(run, j);
    }
  }

  /** Filing that observation leaves an entry that outlives its validation by more than one TTL. */
  lemma LateEntry(config: Config, s: State, a: Action)
    requires config.ttl > 0 && Inv(config, s) && TrustsLate(config, s, a)
    ensures var call := s.processes[a.i].call;
            Proper(call) && Lookup(CacheAfter(config, s, a), KeyOf(call), s.now + config.ttl - 1) == Some(call.target)
  {
    assert ProcessOk(config, s.seen, s.now, s.processes[a.i]);
  }

  /** Where a persisted observation was trusted late, some continuation answers with it one TTL (and the
      slack) or more after its validation: a call that comes just before the entry expires. */
  lemma TrustedLateGoesStale(run: Run, k: nat) returns (longer: Run, i: int)
    requires IsRun(run) && k < |run.actions| && TrustsLate(run.config, run.states[k], run.actions[k])
    ensures IsRun(longer) && longer.config == run.config && run.actions[..k + 1] <= longer.actions
    ensures i in Last(longer).processes && Last(longer).processes[i].Done?
    ensures !Young(run.config, Last(longer).processes[i])
  {
    var config, s, a := run.config, run.states[k], run.actions[k];
    EveryRunKeepsInv(run, k);
    LateEntry(config, s, a);
    assert StepsAt(run, k);
    var call := s.processes[a.i].call;
    i := AboveAll(run.states[k + 1].processes.Keys);
    longer := CutShort(run, k + 1);
    longer := Extended(longer, Tick(config.ttl - 1));
    longer := Extended(longer, Start(i, call.credentialId, call.target, false));
    assert Last(longer).processes[i].Started? && Last(longer).now == s.now + config.ttl - 1;
    longer := Extended(longer, Proceed(i, LookUp));
  }
}
