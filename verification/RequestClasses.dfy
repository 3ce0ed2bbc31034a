/**
 * Telling mutations from reads before anything about the request is trusted. Only a mutation needs a
 * durable audit record and a fresh look at the repository.
 */
module RequestClasses {
  import opened Policies
  import opened GitRefs
  import opened Strings

  predicate HasSuffix(s: string, suffix: string) {
    |suffix| <= |s| && s[|s| - |suffix|..] == suffix
  }

  predicate Contains(s: string, part: string) {
    exists i :: 0 <= i <= |s| && part <= s[i..]
  }

  /** A batch counts as a read only when its body says so. */
  predicate BatchIsMutation(body: LfsBody) {
    !(body.Batch? && body.operation == "download")
  }

  /** What the classification looks at in a path. */
  datatype PathFacts = PathFacts(rest: bool, git: bool, receive: bool, batch: bool, verify: bool, lfs: bool)

  function FactsOf(path: string): PathFacts {
    PathFacts("/api/v3/" <= path, Contains(path, ".git/"), HasSuffix(path, "/git-receive-pack"),
              HasSuffix(path, "/info/lfs/objects/batch"), HasSuffix(path, "/info/lfs/locks/verify"),
              Contains(path, "/info/lfs/"))
  }

  predicate IsMutation(verb: string, path: PathFacts, body: LfsBody) {
    if path.rest && verb != "GET" && verb != "HEAD" then true
    else if !path.git then false
    else if path.receive then true
    else if verb == "POST" && path.batch then BatchIsMutation(body)
    else if verb == "POST" && path.verify then false
    else path.lfs && verb != "GET" && verb != "HEAD"
  }

  /** Whether a Git request goes upstream; `push` says that its ref commands are all permitted. */
  predicate GitForwards(
      verb: string, remainder: string, service: string, body: LfsBody, push: bool, policy: GitPolicy) {
    if verb == "GET" && remainder == "info/refs" then
      service == "git-upload-pack" || (service == "git-receive-pack" && GitCanPush(policy))
    else if verb == "POST" && remainder == "git-upload-pack" then true
    else if verb == "POST" && remainder == "git-receive-pack" then push
    else "info/lfs/" <= remainder && AuthorizeLfs(verb, remainder, body, policy)
  }

  /** The operations that change the repository or its LFS storage. */
  predicate Writes(verb: string, remainder: string, body: LfsBody) {
    || remainder == "git-receive-pack"
    || (remainder == "info/lfs/objects/batch" && body.Batch? && body.operation == "upload")
    || (remainder == "info/lfs/locks" && verb == "POST")
  }

  function GitPath(owner: string, name: string, remainder: string): string {
    "/" + owner + "/" + name + ".git/" + remainder
  }

  /** The owner, the name and the remainder lie where they were put. */
  lemma PathParts(owner: string, name: string, remainder: string)
    ensures var path, a := GitPath(owner, name, remainder), |owner| + 1;
            var b := a + |name| + 5;
            && |path| == b + 1 + |remainder| && path[b + 1..] == remainder && path[b - 4..b + 1] == ".git/"
            && path[1..a] == owner && path[a + 1..b - 4] == name && path[0] == path[a] == path[b] == '/'
  {
  }

  lemma PathSlashes(owner: string, name: string, remainder: string)
    requires NoSlash(owner) && NoSlash(name)
    ensures var path, a := GitPath(owner, name, remainder), |owner| + 1;
            var b := a + |name| + 5;
            && (forall i :: 0 <= i <= b && path[i] == '/' ==> i == 0 || i == a || i == b)
            && (NoSlash(remainder) ==> forall i :: 0 <= i < |path| && path[i] == '/' ==> i == 0 || i == a || i == b)
  {
    var path, a := GitPath(owner, name, remainder), |owner| + 1;
    var b := a + |name| + 5;
    PathParts(owner, name, remainder);
    forall i | 0 <= i <= b && i != 0 && i != a && i != b
      ensures path[i] != '/'
    {
      if i < a { assert path[i] == path[1..a][i - 1]; }
      else if i < b - 4 { assert path[i] == path[a + 1..b - 4][i - a - 1]; }
      else { assert path[i] == path[b - 4..b + 1][i - (b - 4)]; }
    }
    forall i | b < i < |path| && NoSlash(remainder)
      ensures path[i] != '/'
    {
      assert path[i] == path[b + 1..][i - b - 1];
    }
  }

  /** Counted from the end, the path reads like the remainder and like each of its suffixes. */
  lemma EndsAlike(owner: string, name: string, remainder: string, suffix: string, k: nat)
    requires k < |remainder| && k < |suffix|
    ensures HasSuffix(GitPath(owner, name, remainder), suffix) ==>
            suffix[|suffix| - 1 - k] == remainder[|remainder| - 1 - k]
  {
    var path := GitPath(owner, name, remainder);
    PathParts(owner, name, remainder);
    var b := |path| - 1 - |remainder|;
    assert path[b + 1..][|remainder| - 1 - k] == path[|path| - 1 - k];
    if |suffix| <= |path| { assert path[|path| - |suffix|..][|suffix| - 1 - k] == path[|path| - 1 - k]; }
  }

  lemma WholeSuffix(owner: string, name: string, remainder: string)
    ensures HasSuffix(GitPath(owner, name, remainder), "/" + remainder)
  {
    var path := GitPath(owner, name, remainder);
    PathParts(owner, name, remainder);
    var b := |path| - 1 - |remainder|;
    assert path[b..] == [path[b]] + path[b + 1..];
  }

  lemma PartAt(s: string, i: nat, part: string, k: nat)
    requires i <= |s| && k < |part|
    ensures part <= s[i..] ==> i + k < |s| && s[i + k] == part[k]
  {
    if i + k < |s| { assert s[i..][k] == s[i + k]; }
  }

  lemma NotRest(owner: string, name: string, remainder: string)
    requires NoSlash(owner) && NoSlash(name)
    ensures !("/api/v3/" <= GitPath(owner, name, remainder))
  {
    var path := GitPath(owner, name, remainder);
    PathParts(owner, name, remainder);
    PathSlashes(owner, name, remainder);
    assert path[0..] == path;
    PartAt(path, 0, "/api/v3/", 4);
    PartAt(path, 0, "/api/v3/", 7);
  }

  lemma GitIsContained(owner: string, name: string, remainder: string)
    ensures Contains(GitPath(owner, name, remainder), ".git/")
    ensures "info/lfs/" <= remainder ==> Contains(GitPath(owner, name, remainder), "/info/lfs/")
  {
    var path := GitPath(owner, name, remainder);
    PathParts(owner, name, remainder);
    var b := |owner| + |name| + 6;
    assert path[b - 4..] == path[b - 4..b + 1] + path[b + 1..];
    assert ".git/" <= path[b - 4..];
    assert path[b..] == [path[b]] + path[b + 1..];
    if "info/lfs/" <= remainder { assert "/info/lfs/" <= path[b..]; }
  }

  /** A path whose remainder has no slash does not mention LFS, whatever owner and name are. */
  lemma LfsIsNotContained(owner: string, name: string, remainder: string)
    requires NoSlash(owner) && NoSlash(name) && NoSlash(remainder)
    ensures !Contains(GitPath(owner, name, remainder), "/info/lfs/")
  {
    var path := GitPath(owner, name, remainder);
    PathParts(owner, name, remainder);
    PathSlashes(owner, name, remainder);
    forall i | 0 <= i <= |path|
      ensures !("/info/lfs/" <= path[i..])
    {
      PartAt(path, i, "/info/lfs/", 0);
      PartAt(path, i, "/info/lfs/", 5);
      PartAt(path, i, "/info/lfs/", 9);
    }
  }

  predicate Plain(owner: string, name: string) {
    NoSlash(owner) && NoSlash(name)
  }

  function Facts(owner: string, name: string, remainder: string): PathFacts {
    FactsOf(GitPath(owner, name, remainder))
  }

  /** What having a suffix says, and when a path has it. */
  ghost predicate SuffixFit(has: bool, suffix: string, remainder: string)
    requires remainder != "" && |suffix| > 5
  {
    && (has ==> suffix[|suffix| - 1] == remainder[|remainder| - 1])
    && (has && |remainder| > 5 ==> suffix[|suffix| - 6] == remainder[|remainder| - 6])
    && (suffix == "/" + remainder ==> has)
  }

  lemma SuffixOfGitPath(owner: string, name: string, remainder: string, suffix: string)
    requires remainder != "" && |suffix| > 5
    ensures SuffixFit(HasSuffix(GitPath(owner, name, remainder), suffix), suffix, remainder)
  {
    EndsAlike(owner, name, remainder, suffix, 0);
    if |remainder| > 5 { EndsAlike(owner, name, remainder, suffix, 5); }
    WholeSuffix(owner, name, remainder);
  }

  ghost predicate PartsFit(f: PathFacts, remainder: string) {
    !f.rest && f.git && ("info/lfs/" <= remainder ==> f.lfs) && (NoSlash(remainder) ==> !f.lfs)
  }

  lemma PartsOfGitPath(owner: string, name: string, remainder: string)
    requires Plain(owner, name)
    ensures PartsFit(Facts(owner, name, remainder), remainder)
  {
    NotRest(owner, name, remainder);
    GitIsContained(owner, name, remainder);
    if NoSlash(remainder) { LfsIsNotContained(owner, name, remainder); }
  }

  /** What the facts about a path say when they come from its remainder. */
  ghost predicate FactsFit(f: PathFacts, remainder: string)
    requires remainder != ""
  {
    && PartsFit(f, remainder)
    && SuffixFit(f.receive, "/git-receive-pack", remainder)
    && SuffixFit(f.batch, "/info/lfs/objects/batch", remainder)
    && SuffixFit(f.verify, "/info/lfs/locks/verify", remainder)
  }

  lemma FactsOfGitPath(owner: string, name: string, remainder: string)
    requires Plain(owner, name) && remainder != ""
    ensures FactsFit(Facts(owner, name, remainder), remainder)
  {
    PartsOfGitPath(owner, name, remainder);
    SuffixOfGitPath(owner, name, remainder, "/git-receive-pack");
    SuffixOfGitPath(owner, name, remainder, "/info/lfs/objects/batch");
    SuffixOfGitPath(owner, name, remainder, "/info/lfs/locks/verify");
  }

  lemma Literals()
    ensures "/" + "git-receive-pack" == "/git-receive-pack"
    ensures "/" + "info/lfs/objects/batch" == "/info/lfs/objects/batch"
    ensures "/" + "info/lfs/locks/verify" == "/info/lfs/locks/verify"
  {
  }

  /** The bytes that tell the suffixes apart, last and sixth from the end. */
  lemma EndsFit(f: PathFacts, remainder: string)
    requires remainder != "" && FactsFit(f, remainder)
    ensures var last := remainder[|remainder| - 1];
            && (f.receive ==> last == 'k') && (f.batch ==> last == 'h') && (f.verify ==> last == 'y')
            && (f.receive && |remainder| > 5 ==> remainder[|remainder| - 6] == 'e')
            && (remainder == "git-receive-pack" ==> f.receive)
            && (remainder == "info/lfs/objects/batch" ==> f.batch)
            && (remainder == "info/lfs/locks/verify" ==> f.verify)
  {
    Literals();
    assert "/git-receive-pack"[16] == 'k' && "/git-receive-pack"[11] == 'e';
    assert "/info/lfs/objects/batch"[22] == 'h' && "/info/lfs/locks/verify"[21] == 'y';
  }

  lemma UploadIsRead(verb: string, f: PathFacts, body: LfsBody, remainder: string)
    requires remainder == "git-upload-pack" && FactsFit(f, remainder)
    ensures !IsMutation(verb, f, body)
  {
    EndsFit(f, remainder);
    assert remainder[9] == 'd' && NoSlash(remainder);
    assert remainder[14] == 'k';
  }

  lemma RefsAreRead(f: PathFacts, body: LfsBody, remainder: string)
    requires remainder == "info/refs" && FactsFit(f, remainder)
    ensures !IsMutation("GET", f, body)
  {
    EndsFit(f, remainder);
    assert remainder[8] == 's';
  }

  lemma LfsClass(verb: string, f: PathFacts, body: LfsBody, remainder: string, policy: GitPolicy)
    requires "info/lfs/" <= remainder && AuthorizeLfs(verb, remainder, body, policy) && FactsFit(f, remainder)
    ensures IsMutation(verb, f, body) <==> Writes(verb, remainder, body)
  {
    EndsFit(f, remainder);
    assert remainder == "info/lfs/locks" ==> remainder[13] == 's';
    assert remainder == "info/lfs/objects/batch" ==> remainder[21] == 'h';
    assert remainder == "info/lfs/locks/verify" ==> remainder[20] == 'y';
  }

  /** A Git request that goes upstream is classified as a mutation exactly when it writes. */
  lemma ForwardedWritesAreMutations(
      verb: string, owner: string, name: string, remainder: string, service: string, body: LfsBody, push: bool,
      policy: GitPolicy)
    requires Plain(owner, name) && GitForwards(verb, remainder, service, body, push, policy)
    ensures IsMutation(verb, Facts(owner, name, remainder), body) <==> Writes(verb, remainder, body)
  {
    FactsOfGitPath(owner, name, remainder);
    ForwardedClass(verb, Facts(owner, name, remainder), remainder, service, body, push, policy);
  }

  lemma ForwardedClass(
      verb: string, f: PathFacts, remainder: string, service: string, body: LfsBody, push: bool, policy: GitPolicy)
    requires remainder != "" && FactsFit(f, remainder) && GitForwards(verb, remainder, service, body, push, policy)
    ensures IsMutation(verb, f, body) <==> Writes(verb, remainder, body)
  {
    EndsFit(f, remainder);
    if verb == "GET" && remainder == "info/refs" {
      RefsAreRead(f, body, remainder);
    } else if verb == "POST" && remainder == "git-upload-pack" {
      UploadIsRead(verb, f, body, remainder);
    } else if !(verb == "POST" && remainder == "git-receive-pack") {
      LfsClass(verb, f, body, remainder, policy);
    }
  }
}
