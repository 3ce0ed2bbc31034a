/**
 * The concurrent machine and the resolver that runs one call at a time say the same: a resolution that nobody
 * disturbs ends as the sequential one does.
 */
module ResolutionAlone {
  import opened Wrappers
  import opened Repositories
  import opened RepositoryCache
  import opened RepositoryResolution

  /** One move of process `i`. */
  function Moved(config: Config, s: State, i: int, move: Move): State {
    Step(config, s, Proceed(i, move))
  }

  /** The moves by which a process looks into the cache and for a persisted observation. */
  function Looked(config: Config, s: State, i: int): State {
    Moved(config, Moved(config, Moved(config, s, i, LookUp), i, TrustPersisted), i, File)
  }

  /** The moves by which it goes upstream; out of turn they change nothing. */
  function WentUpstream(config: Config, s: State, i: int, endpoint: bool, first: Response, second: Response): State {
    var joined := Moved(config, Moved(config, s, i, Join), i, LookUp);
    Moved(config, Moved(config, joined, i, Respond(endpoint, first, second)), i, File)
  }

  /** A whole resolution by identity. */
  function Resolved(
      config: Config, s: State, i: int, call: Call, endpoint: bool, first: Response, second: Response): State {
    var started := Step(config, s, Start(i, call.credentialId, call.target, call.revalidate));
    WentUpstream(config, Looked(config, started, i), i, endpoint, first, second)
  }

  /** The state with process `i` where it stands and a cache; the clock and all others as they were. */
  predicate At(s: State, t: State, i: int, p: Process, cache: map<string, Entry>) {
    t.now == s.now && t.cache == cache && t.processes == s.processes[i := p]
  }

  /** Whether the cache or the persisted observation answers a call. */
  predicate IsCached(s: State, call: Call)
    requires call.target.id > 0
  {
    && !call.revalidate
    && var key := CacheKey(call.credentialId, call.target.id);
    && key in s.cache && s.now < s.cache[key].expiresAt
  }

  predicate IsPersisted(config: Config, s: State, call: Call) {
    !call.revalidate && call.target.validatedAt != 0 && s.now < call.target.validatedAt + config.ttl
  }

  function Kept(config: Config, s: State, call: Call, r: Repository): map<string, Entry>
    requires call.target.id > 0
  {
    s.cache[CacheKey(call.credentialId, call.target.id) := Entry(r, s.now + config.ttl)]
  }

  /** What a look into the cache makes of a new resolution. */
  function LookedUp(s: State, call: Call): Process
    requires Proper(call)
  {
    if call.revalidate then Fetching(call, BaseOf(s.cache, call), false)
    else if IsCached(s, call)
    then Done(call, s.cache[CacheKey(call.credentialId, call.target.id)].repository, s.now, 0)
    else Missed(call)
  }

  lemma LooksUp(config: Config, s: State, i: int, call: Call)
    requires i !in s.processes && call.begunAt == s.now && call.target.id > 0 && call.credentialId != ""
    ensures var started := Step(config, s, Start(i, call.credentialId, call.target, call.revalidate));
            var t := Moved(config, started, i, LookUp);
            At(s, t, i, LookedUp(s, call), s.cache) && t.flights == s.flights
  {
    var started := Step(config, s, Start(i, call.credentialId, call.target, call.revalidate));
    assert started.processes[i] == Started(call) && started.cache == s.cache && started.now == s.now;
  }

  lemma Trusts(config: Config, s: State, looked: State, i: int, call: Call)
    requires Proper(call) && At(s, looked, i, LookedUp(s, call), s.cache)
    ensures var t := Moved(config, Moved(config, looked, i, TrustPersisted), i, File);
            && t.flights == looked.flights
            && if !IsCached(s, call) && IsPersisted(config, s, call)
               then At(s, t, i, Done(call, call.target, s.now, 0), Kept(config, s, call, call.target))
               else At(s, t, i, LookedUp(s, call), s.cache)
  {
    var a := Moved(config, looked, i, TrustPersisted);
    assert a.now == s.now && a.cache == s.cache && a.flights == looked.flights;
  }

  lemma LooksFirst(config: Config, s: State, i: int, call: Call)
    requires i !in s.processes && call.begunAt == s.now && call.target.id > 0 && call.credentialId != ""
    ensures var t := Looked(config, Step(config, s, Start(i, call.credentialId, call.target, call.revalidate)), i);
            && t.flights == s.flights
            && if !IsCached(s, call) && IsPersisted(config, s, call)
               then At(s, t, i, Done(call, call.target, s.now, 0), Kept(config, s, call, call.target))
               else At(s, t, i, LookedUp(s, call), s.cache)
  {
    var started := Step(config, s, Start(i, call.credentialId, call.target, call.revalidate));
    LooksUp(config, s, i, call);
    Trusts(config, s, Moved(config, started, i, LookUp), i, call);
  }

  /** What upstream tells in answer to a request for `expectedId`, if for any in particular. */
  ghost predicate Told(endpoint: bool, first: Response, second: Response, atHand: Repository, now: int,
                       expectedId: Option<int>, r: Repository)
  {
    endpoint && expectedId in {None, Some(r.id)} && Answers(first, second, atHand, now, r)
  }

  /** Ended processes are left alone by every move upstream. */
  lemma EndedStays(config: Config, s: State, i: int, endpoint: bool, first: Response, second: Response)
    requires i in s.processes && Ended(s.processes[i])
    ensures var t := WentUpstream(config, s, i, endpoint, first, second);
            At(s, t, i, s.processes[i], s.cache)
  {
    var a := Moved(config, s, i, Join);
    var b := Moved(config, a, i, LookUp);
    var c := Moved(config, b, i, Respond(endpoint, first, second));
    assert a.processes == s.processes && b.processes == s.processes && c.processes == s.processes;
  }

  /** Joining with no flight open, and looking again, leaves nothing but to go upstream. */
  lemma SetsOut(config: Config, s: State, i: int, call: Call)
    requires i in s.processes && call.target.id > 0 && call.credentialId != ""
    requires || s.processes[i] == Fetching(call, BaseOf(s.cache, call), false)
             || (s.processes[i] == Missed(call)
                 && !IsCached(s, call.(revalidate := false)) && KeyOf(call) !in s.flights)
    ensures var t := Moved(config, Moved(config, s, i, Join), i, LookUp);
            exists leads :: At(s, t, i, Fetching(call, BaseOf(s.cache, call), leads), s.cache)
  {
    var a := Moved(config, s, i, Join);
    var b := Moved(config, a, i, LookUp);
    assert At(s, b, i, Fetching(call, BaseOf(s.cache, call), s.processes[i].Missed?), s.cache);
  }

  /** What upstream tells of the target decides how the resolution ends. */
  ghost predicate EndsUpstream(config: Config, s: State, t: State, i: int, call: Call, atHand: Repository,
                               endpoint: bool, first: Response, second: Response)
    requires call.target.id > 0
  {
    && (forall r :: Told(endpoint, first, second, atHand, s.now, Some(call.target.id), r) ==>
          At(s, t, i, Done(call, r, s.now, 1), Kept(config, s, call, r)))
    && (!(exists r :: Told(endpoint, first, second, atHand, s.now, Some(call.target.id), r)) ==>
          At(s, t, i, Failed, s.cache))
  }

  lemma ComesBack(config: Config, s: State, i: int, call: Call, base: Repository, leads: bool, endpoint: bool,
                  first: Response, second: Response)
    requires i in s.processes && s.processes[i] == Fetching(call, base, leads)
    requires call.target.id > 0 && call.credentialId != ""
    ensures var t := Moved(config, Moved(config, s, i, Respond(endpoint, first, second)), i, File);
            EndsUpstream(config, s, t, i, call, base, endpoint, first, second)
  {
    FetchedTells(first, second, base, s.now);
    var a := Moved(config, s, i, Respond(endpoint, first, second));
    var r := if endpoint then RepositoryCache.Fetched(first, second, base, s.now) else None;
    if r.Some? && r.value.id == call.target.id {
      assert Told(endpoint, first, second, base, s.now, Some(call.target.id), r.value);
      assert a.processes[i] == Validated(call, r.value, leads);
    } else {
      assert a.processes[i] == Failed;
    }
  }

  /** From where the cache and the persisted observation were of no use. */
  lemma GoesUpstream(config: Config, s: State, looked: State, i: int, call: Call, endpoint: bool,
                     first: Response, second: Response)
    requires call.target.id > 0 && call.credentialId != "" && KeyOf(call) !in looked.flights
    requires || At(s, looked, i, Fetching(call, BaseOf(s.cache, call), false), s.cache)
             || (At(s, looked, i, Missed(call), s.cache) && !IsCached(s, call.(revalidate := false)))
    ensures var t := WentUpstream(config, looked, i, endpoint, first, second);
            EndsUpstream(config, s, t, i, call, BaseOf(s.cache, call), endpoint, first, second)
  {
    SetsOut(config, looked, i, call);
    var out := Moved(config, Moved(config, looked, i, Join), i, LookUp);
    var leads :| At(looked, out, i, Fetching(call, BaseOf(looked.cache, call), leads), looked.cache);
    ComesBack(config, out, i, call, BaseOf(s.cache, call), leads, endpoint, first, second);
    SameEnd(config, s, out, WentUpstream(config, looked, i, endpoint, first, second), i, call, BaseOf(s.cache, call),
            endpoint, first, second);
  }

  lemma SameEnd(config: Config, s: State, out: State, t: State, i: int, call: Call, atHand: Repository,
                endpoint: bool, first: Response, second: Response)
    requires call.target.id > 0 && out.now == s.now && out.cache == s.cache && i in out.processes
    requires out.processes == s.processes[i := out.processes[i]]
    requires EndsUpstream(config, out, t, i, call, atHand, endpoint, first, second)
    ensures EndsUpstream(config, s, t, i, call, atHand, endpoint, first, second)
  {
    assert out.processes[i := t.processes[i]] == s.processes[i := t.processes[i]];
  }

  /** A resolution that nobody disturbs is answered from the cache, else with the persisted observation, else
      with what upstream tells of the target, and fails otherwise: as `RepositoryResolver.Resolve` does, with
      the same cache afterwards. */
  lemma ResolvesAlone(config: Config, s: State, i: int, call: Call, endpoint: bool, first: Response, second: Response)
    requires i !in s.processes && call.begunAt == s.now && call.target.id > 0 && call.credentialId != ""
    requires CacheKey(call.credentialId, call.target.id) !in s.flights
    ensures var t := Resolved(config, s, i, call, endpoint, first, second);
            var key := CacheKey(call.credentialId, call.target.id);
            var atHand := if key in s.cache then s.cache[key].repository else call.target;
            if IsCached(s, call) then At(s, t, i, Done(call, s.cache[key].repository, s.now, 0), s.cache)
            else if IsPersisted(config, s, call)
            then At(s, t, i, Done(call, call.target, s.now, 0), Kept(config, s, call, call.target))
            else EndsUpstream(config, s, t, i, call, atHand, endpoint, first, second)
  {
    var looked := Looked(config, Step(config, s, Start(i, call.credentialId, call.target, call.revalidate)), i);
    LooksFirst(config, s, i, call);
    if IsCached(s, call) || IsPersisted(config, s, call) {
      EndedStays(config, looked, i, endpoint, first, second);
    } else {
      GoesUpstream(config, s, looked, i, call, endpoint, first, second);
    }
  }

  /** Without an identity or a credential it fails at once. */
  lemma FailsAlone(config: Config, s: State, i: int, call: Call, endpoint: bool, first: Response, second: Response)
    requires i !in s.processes && call.begunAt == s.now && (call.target.id <= 0 || call.credentialId == "")
    ensures At(s, Resolved(config, s, i, call, endpoint, first, second), i, Failed, s.cache)
  {
    var looked := Looked(config, Step(config, s, Start(i, call.credentialId, call.target, call.revalidate)), i);
    FailsAtOnce(config, s, i, call);
    EndedStays(config, looked, i, endpoint, first, second);
  }

  lemma FailsAtOnce(config: Config, s: State, i: int, call: Call)
    requires i !in s.processes && call.begunAt == s.now && (call.target.id <= 0 || call.credentialId == "")
    ensures var t := Looked(config, Step(config, s, Start(i, call.credentialId, call.target, call.revalidate)), i);
            At(s, t, i, Failed, s.cache)
  {
    var started := Step(config, s, Start(i, call.credentialId, call.target, call.revalidate));
    assert started.processes[i] == Started(call);
    var a := Moved(config, started, i, LookUp);
    var b := Moved(config, a, i, TrustPersisted);
    assert a.processes[i] == Failed && b.processes[i] == Failed;
  }

  // ---------------------------------------------------------------- by name, and behind a leader

  const NOBODY := Repository(0, "", "", "", "", 0)

  /** What becomes of a resolution by name that hears this. */
  lemma NamesNext(config: Config, s: State, i: int, credentialId: string, expectedId: Option<int>,
                  endpoint: bool, first: Response, second: Response, r: Repository)
    requires credentialId != "" && Told(endpoint, first, second, NOBODY, s.now, expectedId, r)
    ensures r.id > 0 && r.validatedAt == s.now
    ensures ProcessNext(config, s, i, Naming(credentialId, expectedId, s.now), Respond(endpoint, first, second)) ==
            Validated(Call(credentialId, r, true, s.now), r, false)
  {
    FetchedTells(first, second, NOBODY, s.now);
  }

  lemma NamesFail(config: Config, s: State, i: int, credentialId: string, expectedId: Option<int>,
                  endpoint: bool, first: Response, second: Response)
    requires !exists r :: Told(endpoint, first, second, NOBODY, s.now, expectedId, r)
    ensures ProcessNext(config, s, i, Naming(credentialId, expectedId, s.now), Respond(endpoint, first, second)).Failed?
  {
    FetchedTells(first, second, NOBODY, s.now);
    var r := if endpoint then RepositoryCache.Fetched(first, second, NOBODY, s.now) else None;
    if r.Some? && expectedId in {None, Some(r.value.id)} {
      assert Told(endpoint, first, second, NOBODY, s.now, expectedId, r.value);
    }
  }

  /** A resolution by name asks upstream alone, and takes any complete metadata with the expected identity. */
  lemma NamesAlone(config: Config, s: State, i: int, credentialId: string, expectedId: Option<int>,
                   endpoint: bool, first: Response, second: Response)
    requires i !in s.processes && credentialId != ""
    ensures var named := Step(config, s, StartByName(i, credentialId, expectedId));
            var t := Moved(config, Moved(config, named, i, Respond(endpoint, first, second)), i, File);
            && (forall r :: Told(endpoint, first, second, NOBODY, s.now, expectedId, r) ==>
                  && r.id > 0
                  && var call := Call(credentialId, r, true, s.now);
                  && At(s, t, i, Done(call, r, s.now, 1), Kept(config, s, call, r)))
            && (!(exists r :: Told(endpoint, first, second, NOBODY, s.now, expectedId, r)) ==>
                  At(s, t, i, Failed, s.cache))
  {
    var named := Step(config, s, StartByName(i, credentialId, expectedId));
    assert named.processes[i] == Naming(credentialId, expectedId, s.now);
    assert named.now == s.now && named.cache == s.cache;
    var a := Moved(config, named, i, Respond(endpoint, first, second));
    if r :| Told(endpoint, first, second, NOBODY, s.now, expectedId, r) {
      forall q | Told(endpoint, first, second, NOBODY, s.now, expectedId, q)
        ensures a.processes[i] == Validated(Call(credentialId, q, true, s.now), q, false)
        ensures q.id > 0 && q.validatedAt == s.now
      {
        NamesNext(config, named, i, credentialId, expectedId, endpoint, first, second, q);
      }
      FilesAnswer(config, s, a, i, Call(credentialId, r, true, s.now), r);
    } else {
      NamesFail(config, named, i, credentialId, expectedId, endpoint, first, second);
    }
  }

  /** A validated observation is filed, and is the answer. */
  lemma FilesAnswer(config: Config, s: State, a: State, i: int, call: Call, r: Repository)
    requires At(s, a, i, Validated(call, r, false), s.cache) && r.validatedAt == s.now
    requires call.target == r && r.id > 0 && call.credentialId != ""
    ensures At(s, Moved(config, a, i, File), i, Done(call, r, s.now, 1), Kept(config, s, call, r))
  {
  }

  /** Whoever waits for a flight gets what its leader ends with. */
  lemma WaiterReceives(config: Config, s: State, i: int)
    requires i in s.processes && s.processes[i].Waiting? && s.processes[i].leader in s.processes
    requires Ended(s.processes[s.processes[i].leader])
    ensures var w, leader := s.processes[i], s.processes[s.processes[i].leader];
            At(s, Moved(config, s, i, Receive), i,
               if leader.Done? then Done(w.call, leader.repository, leader.decidedAt, leader.trips) else Failed,
               s.cache)
  {
  }
}
