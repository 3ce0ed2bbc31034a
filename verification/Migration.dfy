/**
 * The migration of a configuration from one account per host to several.
 *
 * The old layout keeps a host's token in its own slot in the configuration, or else in the keyring's
 * active slot. The migration lists the active user under the host and stores the token under that user
 * as well, in the same place, and drops the hosts for which there is no token.
 */
module Migration {
  import opened Wrappers
  import opened Strings
  import opened AuthState

  /** What is outside the configuration: whether its hosts can be listed, the hosts whose keyring
      answers a read and accepts a write, and the login the host's API gives for a token. */
  datatype World = World(listable: bool, readable: set<string>, writable: set<string>,
                         logins: map<(string, string), string>)

  datatype Refusal = HostsUnreadable | TokenUnreadable(h: string) | UserUnknown(h: string) | TokenNotMoved(h: string)

  datatype TokenSource = TokenSource(token: string, inKeyring: bool)

  type Outcome = Result<Auth, (Refusal, Auth)>

  const ANONYMOUS := "x-access-token"

  function GetToken(a: Auth, h: string, w: World): Result<Option<TokenSource>, Refusal> {
    var plain, slot := HostOf(a.hosts, h).token, Lookup(a.keyring, (h, ""));
    if plain.Some? && plain.value != "" then Ok(Some(TokenSource(plain.value, false)))
    else if h !in w.readable then Err(TokenUnreadable(h))
    else if slot.None? || slot.value == "" then Ok(None)
    else Ok(Some(TokenSource(slot.value, true)))
  }

  function Username(a: Auth, h: string, token: string, w: World): Option<string> {
    var user := HostOf(a.hosts, h).user;
    if user.Some? && user.value != "" && user.value != ANONYMOUS then user else Lookup(w.logins, (h, token))
  }

  function MigratedHost(host: Host, username: string): Host {
    host.(user := Some(username), users := Listing(host.users, username),
          userTokens := if host.token.Some? then host.userTokens[username := host.token.value]
                        else host.userTokens - {username})
  }

  function HostStep(a: Auth, h: string, w: World): Outcome {
    match GetToken(a, h, w)
    case Err(e) => Err((e, a))
    case Ok(None) => Ok(a.(hosts := a.hosts - {h}))
    case Ok(Some(source)) =>
      var username := Username(a, h, source.token, w);
      if username.None? then Err((UserUnknown(h), a))
      else
        var moved := a.(hosts := a.hosts[h := MigratedHost(HostOf(a.hosts, h), username.value)]);
        if !source.inKeyring then Ok(moved)
        else if h !in w.writable then Err((TokenNotMoved(h), moved))
        else Ok(moved.(keyring := a.keyring[(h, username.value) := source.token]))
  }

  /** Host by host, stopping at the first refusal with what was done by then. */
  function Migrated(a: Auth, hostnames: seq<string>, w: World): Outcome
    decreases |hostnames|
  {
    if hostnames == [] then Ok(a)
    else
      match HostStep(a, hostnames[0], w)
      case Err(refusal) => Err(refusal)
      case Ok(b) => Migrated(b, hostnames[1..], w)
  }

  // ---------------------------------------------------------------- what it means, host by host

  /** The token of a host as a program that knows only the old layout finds it; "" when there is none. */
  function OldToken(a: Auth, h: string): string {
    var plain := HostOf(a.hosts, h).token;
    if plain.Some? && plain.value != "" then plain.value
    else if (h, "") in a.keyring then a.keyring[(h, "")] else ""
  }

  predicate PlainText(a: Auth, h: string) {
    HostOf(a.hosts, h).token.Some? && HostOf(a.hosts, h).token.value != ""
  }

  /** A host goes through when its token can be read, a token that exists has a user, and a keyring
      that holds it takes another entry. */
  predicate Migratable(a: Auth, h: string, w: World) {
    && (PlainText(a, h) || h in w.readable)
    && (OldToken(a, h) != "" ==> Username(a, h, OldToken(a, h), w).Some? && (PlainText(a, h) || h in w.writable))
  }

  function HostAfter(a: Auth, h: string, w: World): Option<Host>
    requires Migratable(a, h, w)
  {
    if OldToken(a, h) == "" then None
    else Some(MigratedHost(HostOf(a.hosts, h), Username(a, h, OldToken(a, h), w).value))
  }

  function SecretAfter(a: Auth, h: string, user: string, w: World): Option<string> {
    if OldToken(a, h) != "" && !PlainText(a, h) && Username(a, h, OldToken(a, h), w) == Some(user)
    then Some(OldToken(a, h)) else Lookup(a.keyring, (h, user))
  }

  lemma HostStepAt(a: Auth, h: string, w: World)
    ensures HostStep(a, h, w).Ok? <==> Migratable(a, h, w)
    ensures HostStep(a, h, w).Ok? ==>
              var b := HostStep(a, h, w).value;
              && Lookup(b.hosts, h) == HostAfter(a, h, w)
              && forall user :: Lookup(b.keyring, (h, user)) == SecretAfter(a, h, user, w)
  {
  }

  lemma HostStepElsewhere(a: Auth, h: string, w: World, other: string)
    requires HostStep(a, h, w).Ok? && other != h
    ensures var b := HostStep(a, h, w).value;
            && Lookup(b.hosts, other) == Lookup(a.hosts, other)
            && (forall user :: Lookup(b.keyring, (other, user)) == Lookup(a.keyring, (other, user)))
            && SameHost(a, b, other, w)
  {
    var b := HostStep(a, h, w).value;
    assert Lookup(b.keyring, (other, "")) == Lookup(a.keyring, (other, ""));
  }

  /** Two states the migration cannot tell apart at a host. */
  ghost predicate SameHost(a: Auth, b: Auth, h: string, w: World) {
    && (h in a.hosts <==> h in b.hosts)
    && OldToken(a, h) == OldToken(b, h) && PlainText(a, h) == PlainText(b, h)
    && (Migratable(a, h, w) <==> Migratable(b, h, w))
    && (Migratable(a, h, w) ==> HostAfter(a, h, w) == HostAfter(b, h, w))
    && Username(a, h, OldToken(a, h), w) == Username(b, h, OldToken(b, h), w)
  }

  /** The migration goes through exactly when every host does. */
  lemma {:induction false} SucceedsIffEveryHost(a: Auth, hostnames: seq<string>, w: World)
    requires NoDuplicates(hostnames)
    ensures Migrated(a, hostnames, w).Ok? <==> forall h :: h in hostnames ==> Migratable(a, h, w)
    decreases |hostnames|
  {
    if hostnames != [] {
      HostStepAt(a, hostnames[0], w);
      if HostStep(a, hostnames[0], w).Ok? {
        var b, rest := HostStep(a, hostnames[0], w).value, hostnames[1..];
        assert NoDuplicates(rest) && hostnames[0] !in rest;
        forall h | h in rest
          ensures Migratable(a, h, w) <==> Migratable(b, h, w)
        {
          HostStepElsewhere(a, hostnames[0], w, h);
        }
        SucceedsIffEveryHost(b, rest, w);
        assert forall h :: h in hostnames <==> h == hostnames[0] || h in rest;
      }
    }
  }

  /** Each listed host ends as its own result says, the others are untouched. */
  lemma {:induction false} MigratedAt(a: Auth, hostnames: seq<string>, w: World, h: string)
    requires NoDuplicates(hostnames) && Migrated(a, hostnames, w).Ok?
    ensures var b := Migrated(a, hostnames, w).value;
            if h in hostnames then
              && Migratable(a, h, w) && Lookup(b.hosts, h) == HostAfter(a, h, w)
              && forall user :: Lookup(b.keyring, (h, user)) == SecretAfter(a, h, user, w)
            else
              && Lookup(b.hosts, h) == Lookup(a.hosts, h)
              && forall user :: Lookup(b.keyring, (h, user)) == Lookup(a.keyring, (h, user))
    decreases |hostnames|
  {
    if hostnames != [] {
      var b, rest := HostStep(a, hostnames[0], w).value, hostnames[1..];
      assert NoDuplicates(rest) && hostnames[0] !in rest;
      HostStepAt(a, hostnames[0], w);
      if h != hostnames[0] { HostStepElsewhere(a, hostnames[0], w, h); }
      MigratedAt(b, rest, w, h);
    }
  }

  // ---------------------------------------------------------------- what the migration promises

  /** The listing of the hosts in the configuration, in some order. */
  ghost predicate Lists(hostnames: seq<string>, a: Auth) {
    NoDuplicates(hostnames) && forall h :: h in hostnames <==> h in a.hosts
  }

  /** A configuration tree: users are listed once, and a token is kept only under a listed user. */
  ghost predicate WellFormed(a: Auth) {
    forall h :: h in a.hosts ==>
      NoDuplicates(a.hosts[h].users) && forall user :: user in a.hosts[h].userTokens ==> user in a.hosts[h].users
  }

  /** Whatever the old configuration held, the new one is in order. */
  lemma MigrationEstablishesOrder(a: Auth, hostnames: seq<string>, w: World)
    requires WellFormed(a) && Lists(hostnames, a) && Migrated(a, hostnames, w).Ok?
    ensures Consistent(Migrated(a, hostnames, w).value)
  {
    var b := Migrated(a, hostnames, w).value;
    forall h | h in b.hosts
      ensures HostOk(b.hosts[h], h, b.keyring)
    {
      MigratedAt(a, hostnames, w, h);
      var host, username := a.hosts[h], Username(a, h, OldToken(a, h), w).value;
      assert Lookup(b.keyring, (h, username)) == SecretAfter(a, h, username, w);
      assert Lookup(b.keyring, (h, "")) == SecretAfter(a, h, "", w);
      assert b.hosts[h] == MigratedHost(host, username);
    }
  }

  /** The hosts kept are those with a token. For each, a program that knows the new layout and one that
      knows only the old one both find the token that was there before. */
  lemma MigrationKeepsTokens(a: Auth, hostnames: seq<string>, w: World, h: string)
    requires Lists(hostnames, a) && Migrated(a, hostnames, w).Ok?
    ensures var b := Migrated(a, hostnames, w).value;
            && (h in b.hosts <==> h in a.hosts && OldToken(a, h) != "")
            && (h in b.hosts ==> ObservedToken(b, h) == OldToken(b, h) == OldToken(a, h))
            && (h in b.hosts ==> b.hosts[h].token == a.hosts[h].token)
            && Lookup(b.keyring, (h, "")) == Lookup(a.keyring, (h, ""))
  {
    var b := Migrated(a, hostnames, w).value;
    MigratedAt(a, hostnames, w, h);
    assert Lookup(b.keyring, (h, "")) == Lookup(a.keyring, (h, ""));
    if h in b.hosts {
      var username := Username(a, h, OldToken(a, h), w).value;
      assert Lookup(b.keyring, (h, username)) == SecretAfter(a, h, username, w);
    }
  }

  /** The user that a host's configuration names, if it names a person. */
  function NamedUser(host: Host): Option<string> {
    match host.user
    case Some(user) => if user == "" || user == ANONYMOUS then None else host.user
    case None => None
  }

  /** What a host needs in order to go through, in terms of what is there. */
  lemma MigratableMeans(a: Auth, h: string, w: World)
    ensures Migratable(a, h, w) <==>
            var inConfiguration := HostOf(a.hosts, h).token.Some? && HostOf(a.hosts, h).token != Some("");
            && (inConfiguration || h in w.readable)
            && (OldToken(a, h) == ""
                || ((NamedUser(HostOf(a.hosts, h)).Some? || (h, OldToken(a, h)) in w.logins)
                    && (inConfiguration || h in w.writable)))
  {
  }

  /** The active user of a kept host is the one its configuration named, or else the one its token logs in as,
      and has the token in the store it came from. Nobody else's token, and no other setting, changes. */
  lemma MigrationNamesUsers(a: Auth, hostnames: seq<string>, w: World, h: string)
    requires Lists(hostnames, a) && Migrated(a, hostnames, w).Ok? && h in Migrated(a, hostnames, w).value.hosts
    ensures h in a.hosts
    ensures var b := Migrated(a, hostnames, w).value;
            var before, host := a.hosts[h], b.hosts[h];
            && host.user.Some?
            && host.user ==
                 (if NamedUser(before).Some? then NamedUser(before) else Lookup(w.logins, (h, OldToken(a, h))))
            && host.users ==
                 (if host.user.value in before.users then before.users else before.users + [host.user.value])
            && host.gitProtocol == before.gitProtocol
            && Lookup(host.userTokens, host.user.value) == before.token
            && (before.token in {None, Some("")} ==> Lookup(b.keyring, (h, host.user.value)) == Some(OldToken(a, h)))
            && forall user :: user != host.user.value ==>
                 && Lookup(host.userTokens, user) == Lookup(before.userTokens, user)
                 && Lookup(b.keyring, (h, user)) == Lookup(a.keyring, (h, user))
  {
    var b := Migrated(a, hostnames, w).value;
    MigratedAt(a, hostnames, w, h);
    MigrationKeepsTokens(a, hostnames, w, h);
    forall user
      ensures Lookup(b.keyring, (h, user)) == SecretAfter(a, h, user, w)
    {
    }
  }

  lemma SameLookups<K, V>(m: map<K, V>, n: map<K, V>)
    requires forall k :: Lookup(m, k) == Lookup(n, k)
    ensures m == n
  {
    forall k
      ensures k in m <==> k in n
      ensures k in m ==> m[k] == n[k]
    {
      assert Lookup(m, k) == Lookup(n, k);
    }
  }

  lemma SameStates(b: Auth, c: Auth)
    requires forall h :: Lookup(b.hosts, h) == Lookup(c.hosts, h)
    requires forall h, user :: Lookup(b.keyring, (h, user)) == Lookup(c.keyring, (h, user))
    ensures b == c
  {
    SameLookups(b.hosts, c.hosts);
    forall k: (string, string)
      ensures Lookup(b.keyring, k) == Lookup(c.keyring, k)
    {
      assert Lookup(b.keyring, (k.0, k.1)) == Lookup(c.keyring, (k.0, k.1));
    }
    SameLookups(b.keyring, c.keyring);
  }

  ghost predicate SameSecret(a: Auth, again: Auth, w: World, h: string, user: string) {
    SecretAfter(a, h, user, w) == SecretAfter(again, h, user, w)
  }

  /** Two states a migration of the given hosts cannot tell apart, nor leaves apart. */
  ghost predicate SameStart(a: Auth, again: Auth, hostnames: seq<string>, w: World) {
    && a.hosts == again.hosts
    && (forall h :: h in hostnames ==> SameHost(a, again, h, w))
    && (forall h, user :: h in hostnames ==> SameSecret(a, again, w, h, user))
    && (forall h, user :: h !in hostnames ==> Lookup(a.keyring, (h, user)) == Lookup(again.keyring, (h, user)))
  }

  /** Two migrations end alike when they list the same hosts of two states they cannot tell apart. */
  lemma SameEnd(a: Auth, hostnames: seq<string>, again: Auth, others: seq<string>, w: World)
    requires NoDuplicates(hostnames) && NoDuplicates(others) && forall h :: h in hostnames <==> h in others
    requires Migrated(a, hostnames, w).Ok? && Migrated(again, others, w).Ok? && SameStart(a, again, hostnames, w)
    ensures Migrated(again, others, w) == Migrated(a, hostnames, w)
  {
    var b, c := Migrated(a, hostnames, w).value, Migrated(again, others, w).value;
    forall h
      ensures Lookup(b.hosts, h) == Lookup(c.hosts, h)
    {
      MigratedAt(a, hostnames, w, h);
      MigratedAt(again, others, w, h);
    }
    forall h, user
      ensures Lookup(b.keyring, (h, user)) == Lookup(c.keyring, (h, user))
    {
      MigratedAt(a, hostnames, w, h);
      MigratedAt(again, others, w, h);
      assert h in hostnames ==> SameSecret(a, again, w, h, user);
    }
    SameStates(b, c);
  }

  /** The order in which the hosts are listed decides neither success nor the outcome. */
  lemma OrderDoesNotMatter(a: Auth, hostnames: seq<string>, others: seq<string>, w: World)
    requires Lists(hostnames, a) && Lists(others, a) && Migrated(a, hostnames, w).Ok?
    ensures Migrated(a, others, w) == Migrated(a, hostnames, w)
  {
    SucceedsIffEveryHost(a, hostnames, w);
    SucceedsIffEveryHost(a, others, w);
    SameEnd(a, hostnames, a, others, w);
  }

  /** A refused migration has at most put copies of active tokens into the keyring. */
  lemma {:induction false} RefusalOnlyCopies(a: Auth, hostnames: seq<string>, w: World, h: string, user: string)
    requires NoDuplicates(hostnames) && Migrated(a, hostnames, w).Err?
    ensures Lookup(Migrated(a, hostnames, w).error.1.keyring, (h, user)) in
              {Lookup(a.keyring, (h, user)), SecretAfter(a, h, user, w)}
    decreases |hostnames|
  {
    if HostStep(a, hostnames[0], w).Ok? {
      var b, rest := HostStep(a, hostnames[0], w).value, hostnames[1..];
      assert NoDuplicates(rest) && hostnames[0] !in rest;
      HostStepAt(a, hostnames[0], w);
      if h == hostnames[0] {
        KeyringElsewhere(b, rest, w, h, user);
        assert Lookup(b.keyring, (h, user)) == SecretAfter(a, h, user, w);
      } else {
        HostStepElsewhere(a, hostnames[0], w, h);
        RefusalOnlyCopies(b, rest, w, h, user);
      }
    }
  }

  lemma {:induction false} KeyringElsewhere(a: Auth, hostnames: seq<string>, w: World, h: string, user: string)
    requires h !in hostnames && Migrated(a, hostnames, w).Err?
    ensures Lookup(Migrated(a, hostnames, w).error.1.keyring, (h, user)) == Lookup(a.keyring, (h, user))
    decreases |hostnames|
  {
    if HostStep(a, hostnames[0], w).Ok? {
      var b := HostStep(a, hostnames[0], w).value;
      HostStepElsewhere(a, hostnames[0], w, h);
      assert Lookup(b.keyring, (h, user)) == Lookup(a.keyring, (h, user));
      KeyringElsewhere(b, hostnames[1..], w, h, user);
    }
  }

  /** The keyring a refusal leaves cannot be told apart from the one before. */
  lemma RefusalChangesNothing(a: Auth, hostnames: seq<string>, refused: World, w: World, h: string, user: string)
    requires NoDuplicates(hostnames) && Migrated(a, hostnames, refused).Err? && refused.logins == w.logins
    ensures var again := a.(keyring := Migrated(a, hostnames, refused).error.1.keyring);
            SameHost(a, again, h, w) && SecretAfter(a, h, user, w) == SecretAfter(again, h, user, w)
  {
    RefusalOnlyCopies(a, hostnames, refused, h, "");
    RefusalOnlyCopies(a, hostnames, refused, h, user);
    var again := a.(keyring := Migrated(a, hostnames, refused).error.1.keyring);
    assert Lookup(again.keyring, (h, "")) == Lookup(a.keyring, (h, ""));
    assert OldToken(again, h) == OldToken(a, h);
  }

  /** The configuration unwritten, and the keyring the refusal left. */
  ghost function AfterRefusal(a: Auth, hostnames: seq<string>, w: World): Auth
    requires Migrated(a, hostnames, w).Err?
  {
    a.(keyring := Migrated(a, hostnames, w).error.1.keyring)
  }

  lemma RefusalLeavesSameStart(a: Auth, hostnames: seq<string>, refused: World, others: seq<string>, w: World)
    requires Lists(hostnames, a) && Lists(others, a)
    requires Migrated(a, hostnames, refused).Err? && refused.logins == w.logins
    ensures SameStart(a, AfterRefusal(a, hostnames, refused), others, w)
  {
    var again := AfterRefusal(a, hostnames, refused);
    forall h, user
      ensures SameHost(a, again, h, w) && SameSecret(a, again, w, h, user)
    {
      RefusalChangesNothing(a, hostnames, refused, w, h, user);
    }
    forall h
      ensures SameHost(a, again, h, w)
    {
      assert SameSecret(a, again, w, h, "");
    }
    forall h, user | h !in others
      ensures Lookup(a.keyring, (h, user)) == Lookup(again.keyring, (h, user))
    {
      KeyringElsewhere(a, hostnames, refused, h, user);
    }
  }

  /** A refusal does not write the configuration, so the next attempt starts from the old one and the
      keyring the refusal left. It ends exactly as if the refused attempt had never been made. */
  lemma RetryIsClean(a: Auth, hostnames: seq<string>, refused: World, others: seq<string>, w: World)
    requires Lists(hostnames, a) && Lists(others, a)
    requires Migrated(a, hostnames, refused).Err? && refused.logins == w.logins
    ensures var again := AfterRefusal(a, hostnames, refused);
            && (Migrated(again, others, w).Ok? <==> Migrated(a, others, w).Ok?)
            && (Migrated(a, others, w).Ok? ==> Migrated(again, others, w) == Migrated(a, others, w))
  {
    var again := AfterRefusal(a, hostnames, refused);
    RefusalLeavesSameStart(a, hostnames, refused, others, w);
    SucceedsIffEveryHost(a, others, w);
    SucceedsIffEveryHost(again, others, w);
    assert forall h :: h in others ==> SameHost(a, again, h, w);
    if Migrated(a, others, w).Ok? {
      SameEnd(a, others, again, others, w);
    }
  }

  /** From any old configuration, a migration and then any successful logins, switches and logouts. */
  lemma MigratedStatesStayInOrder(a: Auth, hostnames: seq<string>, w: World, ops: seq<(Operation, Faults)>)
    requires WellFormed(a) && Lists(hostnames, a) && Migrated(a, hostnames, w).Ok?
    requires Successful(Migrated(a, hostnames, w).value, ops)
    ensures Consistent(AuthState.Outcome(Migrated(a, hostnames, w).value, ops))
  {
    MigrationEstablishesOrder(a, hostnames, w);
    SequencesKeep(Migrated(a, hostnames, w).value, ops);
  }

  // ---------------------------------------------------------------- the configuration object

  const PRE_VERSION := ""
  const POST_VERSION := "1"

  datatype File = File(version: Option<string>, hosts: map<string, Host>)

  datatype MigrateError = VersionMismatch | Refused(refusal: Refusal) | NotWritten

  class Config {
    var version: Option<string>
    var hosts: map<string, Host>
    var keyring: map<(string, string), string>
    var file: File

    function State(): Auth
      reads this
    {
      Auth(hosts, keyring)
    }

    constructor (file: File, keyring: map<(string, string), string>)
      ensures this.file == file && this.keyring == keyring && version == file.version && hosts == file.hosts
    {
      this.file, this.keyring, version, hosts := file, keyring, file.version, file.hosts;
    }

    method MigrateHost(h: string, w: World) returns (r: Option<Refusal>)
      modifies this`hosts, this`keyring
      ensures match HostStep(old(State()), h, w)
              case Ok(b) => r.None? && State() == b
              case Err((refusal, b)) => r == Some(refusal) && State() == b
    {
      var source := GetToken(State(), h, w);
      if source.Err? { return Some(source.error); }
      if source.value.None? {
        hosts := hosts - {h};
        return None;
      }
      var token := source.value.value.token;
      var username := Username(State(), h, token, w);
      if username.None? { return Some(UserUnknown(h)); }
      var host := HostOf(hosts, h);
      hosts := hosts[h := host.(user := username)];
      var users, tokens := Listing(host.users, username.value), host.userTokens - {username.value};
      hosts := hosts[h := hosts[h].(users := users, userTokens := tokens)];
      if host.token.Some? {
        hosts := hosts[h := hosts[h].(userTokens := hosts[h].userTokens[username.value := host.token.value])];
        assert hosts[h].userTokens == host.userTokens[username.value := host.token.value];
      }
      if source.value.value.inKeyring {
        if h !in w.writable { return Some(TokenNotMoved(h)); }
        keyring := keyring[(h, username.value) := token];
      }
      return None;
    }

    method Do(hostnames: seq<string>, w: World) returns (r: Option<Refusal>)
      requires Lists(hostnames, State())
      modifies this`hosts, this`keyring
      ensures !w.listable ==> r == Some(HostsUnreadable) && State() == old(State())
      ensures w.listable ==>
                match Migrated(old(State()), hostnames, w)
                case Ok(b) => r.None? && State() == b
                case Err((refusal, b)) => r == Some(refusal) && State() == b
    {
      if !w.listable { return Some(HostsUnreadable); }
      var i := 0;
      assert hostnames[0..] == hostnames;
      while i < |hostnames|
        invariant 0 <= i <= |hostnames|
        invariant Migrated(State(), hostnames[i..], w) == Migrated(old(State()), hostnames, w)
      {
        assert hostnames[i..][1..] == hostnames[i + 1..];
        var refusal := MigrateHost(hostnames[i], w);
        if refusal.Some? { return refusal; }
        i := i + 1;
      }
      return None;
    }

    /** Migrating again is the identity, another version is an error, and the file is rewritten only by
        a migration that went through; a refusal leaves it and the version as they were. */
    method Migrate(hostnames: seq<string>, w: World, writable: bool) returns (r: Option<MigrateError>)
      requires Lists(hostnames, State())
      modifies this
      ensures old(version) == Some(POST_VERSION) ==>
                r.None? && State() == old(State()) && file == old(file) && version == old(version)
      ensures r == Some(VersionMismatch) <==> old(version) !in {None, Some(PRE_VERSION), Some(POST_VERSION)}
      ensures r == Some(VersionMismatch) ==> State() == old(State())
      ensures r.Some? ==> file == old(file)
      ensures r.Some? && !r.value.NotWritten? ==> version == old(version)
      ensures r.None? ==> version == Some(POST_VERSION)
      ensures r.None? && old(version) != version ==>
                file == File(version, hosts) && Migrated(old(State()), hostnames, w) == Ok(State())
      ensures r.Some? && r.value.Refused? && w.listable ==>
                Migrated(old(State()), hostnames, w) == Err((r.value.refusal, State()))
    {
      var current := if version.Some? then version.value else "";
      if POST_VERSION == current { return None; }
      if PRE_VERSION != current { return Some(VersionMismatch); }
      var refusal := Do(hostnames, w);
      if refusal.Some? { return Some(Refused(refusal.value)); }
      version := Some(POST_VERSION);
      if !writable { return Some(NotWritten); }
      file := File(version, hosts);
      return None;
    }
  }
}
