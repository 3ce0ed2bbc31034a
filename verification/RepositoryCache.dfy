/**
 * The Repository Observation cache: a TTL cache, the persisted observation behind it, and the
 * upstream fetch behind both, run in place by one caller at a time.
 */
module RepositoryCache {
  import opened Wrappers
  import opened Repositories

  // ---------------------------------------------------------------- keys

  function Decimal(n: nat): string {
    if n < 10 then [('0' as int + n) as char] else Decimal(n / 10) + [('0' as int + n % 10) as char]
  }

  function DigitsValue(s: string): int {
    if s == [] then 0 else 10 * DigitsValue(s[..|s| - 1]) + (s[|s| - 1] as int - '0' as int)
  }

  lemma {:induction false} DecimalReadsBack(n: nat)
    ensures DigitsValue(Decimal(n)) == n && ':' !in Decimal(n)
  {
    if n < 10 {
      assert Decimal(n)[..0] == [];
    } else {
      DecimalReadsBack(n / 10);
      var s := Decimal(n);
      assert s[..|s| - 1] == Decimal(n / 10);
    }
  }

  function CacheKey(credentialId: string, repositoryId: nat): string {
    credentialId + ":" + Decimal(repositoryId)
  }

  lemma LastColonSplits(a: string, x: string, b: string, y: string)
    requires a + ":" + x == b + ":" + y && ':' !in x && ':' !in y
    ensures a == b && x == y
  {
    var k := a + ":" + x;
    assert k[|a|] == ':' && k[|b|] == ':';
    assert forall i :: |a| < i < |k| ==> k[i] == x[i - |a| - 1];
    assert forall i :: |b| < i < |k| ==> k[i] == y[i - |b| - 1];
    assert |a| == |b|;
    assert a == k[..|a|] && b == k[..|a|] && x == k[|a| + 1..] && y == k[|a| + 1..];
  }

  /** No two credentials share a key, whatever colons and digits their names contain. */
  lemma CacheKeyIsInjective(c: string, i: nat, d: string, j: nat)
    requires CacheKey(c, i) == CacheKey(d, j)
    ensures c == d && i == j
  {
    DecimalReadsBack(i);
    DecimalReadsBack(j);
    LastColonSplits(c, Decimal(i), d, Decimal(j));
  }

  // ---------------------------------------------------------------- cache entries

  const DEFAULT_TTL := 30    // seconds
  const MAX_TTL := 300

  function NormalizeTtl(ttl: int): (r: int)
    ensures 0 < r <= MAX_TTL
    ensures r == ttl <==> 0 < ttl <= MAX_TTL
    ensures r != ttl ==> r == if ttl <= 0 then DEFAULT_TTL else MAX_TTL
  {
    if ttl <= 0 then DEFAULT_TTL else if ttl > MAX_TTL then MAX_TTL else ttl
  }

  datatype Entry = Entry(repository: Repository, expiresAt: int)

  function Stored(
      cache: map<string, Entry>, credentialId: string, repository: Repository, now: int, ttl: int): map<string, Entry> {
    if credentialId == "" || repository.id <= 0 then cache
    else cache[CacheKey(credentialId, repository.id) := Entry(repository, now + ttl)]
  }

  function Lookup(cache: map<string, Entry>, key: string, now: int): Option<Repository> {
    if key in cache && now < cache[key].expiresAt then Some(cache[key].repository) else None
  }

  /** An observation is filed under its own credential and identity, was really made through that
      credential, and outlives its validation by less than `horizon`. */
  ghost predicate EntryOk(key: string, entry: Entry, seen: set<(string, Repository)>, horizon: int) {
    && entry.expiresAt < entry.repository.validatedAt + horizon
    && entry.repository.id > 0
    && exists credentialId ::
       key == CacheKey(credentialId, entry.repository.id) && (credentialId, entry.repository) in seen
  }

  ghost predicate CacheOk(cache: map<string, Entry>, seen: set<(string, Repository)>, horizon: int) {
    forall key :: key in cache ==> EntryOk(key, cache[key], seen, horizon)
  }

  lemma StoredOk(cache: map<string, Entry>, seen: set<(string, Repository)>, horizon: int,
                 credentialId: string, repository: Repository, now: int, ttl: int)
    requires CacheOk(cache, seen, horizon) && (credentialId, repository) in seen
    requires now + ttl < repository.validatedAt + horizon
    ensures CacheOk(Stored(cache, credentialId, repository, now, ttl), seen, horizon)
  {
    var after := Stored(cache, credentialId, repository, now, ttl);
    forall key | key in after
      ensures EntryOk(key, after[key], seen, horizon)
    {
      if key in cache && after[key] == cache[key] { assert EntryOk(key, cache[key], seen, horizon); }
    }
  }

  /** Whatever is filed under a credential and identity was made through them, and is younger than
      the horizon whenever it may still be served. */
  lemma CachedIsOwn(
      cache: map<string, Entry>, seen: set<(string, Repository)>, horizon: int, credentialId: string, id: nat, now: int)
    requires CacheOk(cache, seen, horizon) && CacheKey(credentialId, id) in cache
    ensures var entry := cache[CacheKey(credentialId, id)];
            && entry.repository.id == id && (credentialId, entry.repository) in seen
            && (now < entry.expiresAt ==> now - entry.repository.validatedAt < horizon - 1)
  {
    var key := CacheKey(credentialId, id);
    assert EntryOk(key, cache[key], seen, horizon);
    var c :| key == CacheKey(c, cache[key].repository.id) && (c, cache[key].repository) in seen;
    CacheKeyIsInjective(credentialId, id, c, cache[key].repository.id);
  }

  lemma WiderStillOk(
      cache: map<string, Entry>, seen: set<(string, Repository)>, wider: set<(string, Repository)>, horizon: int)
    requires CacheOk(cache, seen, horizon) && seen <= wider
    ensures CacheOk(cache, wider, horizon)
  {
    forall key | key in cache
      ensures EntryOk(key, cache[key], wider, horizon)
    {
      assert EntryOk(key, cache[key], seen, horizon);
    }
  }

  /** Every entry expires within one TTL of its validation. */
  ghost predicate Prompt(cache: map<string, Entry>, seen: set<(string, Repository)>, ttl: int) {
    CacheOk(cache, seen, ttl + 1)
  }

  /** A filed observation is served for less than one TTL after its validation, at whatever time it is
      looked up, exactly when it was filed the moment it was validated. */
  lemma ServedYoungIff(cache: map<string, Entry>, credentialId: string, repository: Repository, now: int, ttl: int)
    requires credentialId != "" && repository.id > 0 && repository.validatedAt <= now && ttl > 0
    ensures var after, key := Stored(cache, credentialId, repository, now, ttl), CacheKey(credentialId, repository.id);
            (forall later :: Lookup(after, key, later).Some? ==> later - repository.validatedAt < ttl) <==>
            repository.validatedAt == now
  {
    var after, key := Stored(cache, credentialId, repository, now, ttl), CacheKey(credentialId, repository.id);
    assert Lookup(after, key, now + ttl - 1) == Some(repository);
  }

  /** Filing keeps the cache prompt exactly when the observation is not older than the filing. */
  lemma StoredPromptIff(cache: map<string, Entry>, seen: set<(string, Repository)>,
                        credentialId: string, repository: Repository, now: int, ttl: int)
    requires Prompt(cache, seen, ttl) && (credentialId, repository) in seen && credentialId != "" && repository.id > 0
    ensures Prompt(Stored(cache, credentialId, repository, now, ttl), seen, ttl) <==> now <= repository.validatedAt
  {
    var after, key := Stored(cache, credentialId, repository, now, ttl), CacheKey(credentialId, repository.id);
    if now <= repository.validatedAt {
      StoredOk(cache, seen, ttl + 1, credentialId, repository, now, ttl);
    } else {
      assert key in after && !EntryOk(key, after[key], seen, ttl + 1);
    }
  }

  // ---------------------------------------------------------------- the fetch

  datatype Response =
    | Moved(sameHttpsHost: bool)
    | NotModified
    | Metadata(id: int, owner: string, name: string, defaultBranch: string, etag: string, singleJsonValue: bool)
    | Failure

  predicate Acceptable(r: Response) {
    r.Metadata? && r.singleJsonValue && r.id > 0 && r.owner != "" && r.name != "" && r.defaultBranch != ""
  }

  /** What a final, non-redirect response makes of the observation at hand. */
  function Outcome(r: Response, cached: Repository, now: int): Option<Repository> {
    if r.NotModified? && cached.id > 0 then Some(cached.(validatedAt := now))
    else if Acceptable(r) then Some(Repository(r.id, r.owner, r.name, r.defaultBranch, r.etag, now))
    else None
  }

  /** One redirect within the host is followed, a second is not. */
  function Fetched(first: Response, second: Response, cached: Repository, now: int): Option<Repository> {
    if !first.Moved? then Outcome(first, cached, now)
    else if !first.sameHttpsHost || second.Moved? then None
    else Outcome(second, cached, now)
  }

  /** `r` is what a request comes to that follows one redirect within its host and no second one. */
  predicate Ends(first: Response, second: Response, r: Response) {
    !r.Moved? && (r == first || (first == Moved(true) && r == second))
  }

  /** What an answer owes to its final response: all of the metadata, or all of the observation at hand. */
  predicate Tells(r: Response, atHand: Repository, now: int, answer: Repository) {
    && answer.validatedAt == now
    && match r
       case Metadata(id, owner, name, defaultBranch, etag, single) =>
         && single && id > 0 && owner != "" && name != "" && defaultBranch != ""
         && answer.id == id && answer.owner == owner && answer.name == name
         && answer.defaultBranch == defaultBranch && answer.etag == etag
       case NotModified =>
         && atHand.id > 0 && answer.id == atHand.id && answer.owner == atHand.owner && answer.name == atHand.name
         && answer.defaultBranch == atHand.defaultBranch && answer.etag == atHand.etag
       case _ => false
  }

  ghost predicate Answers(first: Response, second: Response, atHand: Repository, now: int, answer: Repository) {
    exists r :: Ends(first, second, r) && Tells(r, atHand, now, answer)
  }

  /** An answer is what the final response tells, and there is one whenever it tells anything. */
  lemma FetchedTells(first: Response, second: Response, atHand: Repository, now: int)
    ensures forall answer ::
              Fetched(first, second, atHand, now) == Some(answer) <==> Answers(first, second, atHand, now, answer)
  {
    forall answer
      ensures Fetched(first, second, atHand, now) == Some(answer) <==> Answers(first, second, atHand, now, answer)
    {
      var last := if first.Moved? then second else first;
      if Fetched(first, second, atHand, now) == Some(answer) {
        assert Ends(first, second, last) && Tells(last, atHand, now, answer);
      }
    }
  }

  method Fetch(responses: nat -> Response, cached: Repository, now: int) returns (r: Option<Repository>, trips: nat)
    ensures r == Fetched(responses(0), responses(1), cached, now)
    ensures forall answer :: r == Some(answer) <==> Answers(responses(0), responses(1), cached, now, answer)
    ensures 1 <= trips <= 2
  {
    trips := 0;
    var response := Failure;
    while trips < 2
      invariant trips <= 1
      invariant trips == 1 ==> responses(0) == Moved(true)
    {
      response := responses(trips);
      trips := trips + 1;
      if !response.Moved? { break; }
      if trips != 1 || !response.sameHttpsHost {
        FetchedTells(responses(0), responses(1), cached, now);
        return None, trips;
      }
    }
    FetchedTells(responses(0), responses(1), cached, now);
    if response.NotModified? && cached.id > 0 { return Some(cached.(validatedAt := now)), trips; }
    if !Acceptable(response) { return None, trips; }
    var current := response;
    r := Some(Repository(current.id, current.owner, current.name, current.defaultBranch, current.etag, now));
  }

  // ---------------------------------------------------------------- one caller at a time

  class RepositoryResolver {
    const ttl: int
    var cache: map<string, Entry>
    ghost var seen: set<(string, Repository)>    // observations made or handed over, by credential

    constructor (configuredTtl: int)
      ensures Valid() && cache == map[] && ttl == NormalizeTtl(configuredTtl) && seen == {}
    {
      ttl := NormalizeTtl(configuredTtl);
      cache := map[];
      seen := {};
    }

    ghost predicate Valid()
      reads this
    {
      0 < ttl <= MAX_TTL && CacheOk(cache, seen, 2 * ttl)
    }

    /** The observation that a 304 renews: the cached one, expired or not, else the target. */
    function AtHand(credentialId: string, target: Repository): Repository
      requires target.id > 0
      reads this
    {
      var key := CacheKey(credentialId, target.id);
      if key in cache then cache[key].repository else target
    }

    method ResolveCurrent(
        credentialId: string, target: Repository, endpoint: bool, responses: nat -> Response, now: int)
      returns (r: Option<Repository>, trips: nat)
      requires Valid() && target.id > 0
      modifies this
      ensures Valid() && old(seen) <= seen
      ensures r.Some? ==>
        && r.value.id == target.id && r.value.validatedAt == now && trips >= 1
        && seen == old(seen) + {(credentialId, r.value)}
        && cache == Stored(old(cache), credentialId, r.value, now, ttl)
      ensures r.None? ==> cache == old(cache) && seen == old(seen)
      ensures forall answer ::
                r == Some(answer) <==>
                && endpoint && answer.id == target.id
                && Answers(responses(0), responses(1), old(AtHand(credentialId, target)), now, answer)
      ensures endpoint && responses(0) == NotModified ==>
        var key := CacheKey(credentialId, target.id);
        r == Some((if key in old(cache) then old(cache)[key].repository else target).(validatedAt := now))
    {
      var base := target;
      if CacheKey(credentialId, target.id) in cache {
        CachedIsOwn(cache, seen, 2 * ttl, credentialId, target.id, now);
      }
      var key := CacheKey(credentialId, target.id);
      if key in cache { base := cache[key].repository; }
      if !endpoint { return None, 0; }
      r, trips := Fetch(responses, base, now);
      if r.None? || r.value.id != target.id { return None, trips; }
      seen := seen + {(credentialId, r.value)};
      StoredOk(cache, seen, 2 * ttl, credentialId, r.value, now, ttl);
      cache := Stored(cache, credentialId, r.value, now, ttl);
    }

    /** The call falls back on a persisted observation that is older than the call. */
    predicate TrustsLate(credentialId: string, target: Repository, revalidate: bool, now: int)
      reads this
    {
      && target.id > 0 && credentialId != "" && !revalidate
      && Lookup(cache, CacheKey(credentialId, target.id), now).None?
      && target.validatedAt != 0 && target.validatedAt < now < target.validatedAt + ttl
    }

    /** Any answer has the target's identity, was made through the caller's credential or handed over
        as its persisted observation, and is younger than twice the TTL; a revalidate answer is new.
        While every entry is prompt the answer is younger than one TTL, and the entries stay prompt
        exactly when the call does not trust a persisted observation late. */
    method Resolve(
        credentialId: string, target: Repository, revalidate: bool, endpoint: bool, responses: nat -> Response,
        now: int)
      returns (r: Option<Repository>, trips: nat)
      requires Valid()
      modifies this
      ensures Valid() && old(seen) <= seen
      ensures r.Some? ==>
        && r.value.id == target.id
        && (credentialId, r.value) in seen && seen <= old(seen) + {(credentialId, target), (credentialId, r.value)}
        && now - r.value.validatedAt < 2 * ttl
      ensures revalidate && r.Some? ==> trips >= 1 && r.value.validatedAt == now
      ensures r.None? ==> cache == old(cache) && seen == old(seen)
      ensures target.id <= 0 || credentialId == "" ==> r.None?
      ensures target.id > 0 && credentialId != "" ==>
        var key := CacheKey(credentialId, target.id);
        if !revalidate && key in old(cache) && now < old(cache)[key].expiresAt
        then r == Some(old(cache)[key].repository) && cache == old(cache)
        else if !revalidate && target.validatedAt != 0 && now < target.validatedAt + ttl
        then r == Some(target) && cache == old(cache)[key := Entry(target, now + ttl)]
        else
          && (r.Some? ==> cache == old(cache)[key := Entry(r.value, now + ttl)])
          && forall answer ::
               r == Some(answer) <==>
               && endpoint && answer.id == target.id
               && Answers(responses(0), responses(1), old(AtHand(credentialId, target)), now, answer)
      ensures old(Prompt(cache, seen, ttl)) && r.Some? ==> now - r.value.validatedAt < ttl
      ensures old(Prompt(cache, seen, ttl)) ==>
        (Prompt(cache, seen, ttl) <==> !old(TrustsLate(credentialId, target, revalidate, now)))
    {
      trips := 0;
      if target.id <= 0 || credentialId == "" { return None, 0; }
      var key := CacheKey(credentialId, target.id);
      if !revalidate {
        r := Lookup(cache, key, now);
        if r.Some? {
          CachedIsOwn(cache, seen, 2 * ttl, credentialId, target.id, now);
          return;
        }
        if target.validatedAt != 0 && now < target.validatedAt + ttl {
          ghost var before := seen;
          seen := seen + {(credentialId, target)};
          if Prompt(cache, before, ttl) {
            WiderStillOk(cache, before, seen, ttl + 1);
            StoredPromptIff(cache, seen, credentialId, target, now, ttl);
          }
          StoredOk(cache, seen, 2 * ttl, credentialId, target, now, ttl);
          cache := Stored(cache, credentialId, target, now, ttl);
          return Some(target), 0;
        }
      }
      r, trips := ResolveCurrent(credentialId, target, endpoint, responses, now);
      if r.Some? && old(Prompt(cache, seen, ttl)) {
        WiderStillOk(old(cache), old(seen), seen, ttl + 1);
        StoredPromptIff(old(cache), seen, credentialId, r.value, now, ttl);
      }
    }
  }
}
