/**
 * Multi-account authentication over two stores: the hosts section of the configuration tree and the
 * operating system keyring, in which the empty user name is the host's active slot.
 *
 * Keyring calls and the final configuration write may fail, each as `Faults` says.
 */
module AuthState {
  import opened Wrappers
  import opened Strings

  /** One host: its active user and token slot, and its users in listing order. */
  datatype Host = Host(
    user: Option<string>, token: Option<string>, gitProtocol: Option<string>,
    users: seq<string>, userTokens: map<string, string>)

  datatype Auth = Auth(hosts: map<string, Host>, keyring: map<(string, string), string>)

  /** Which keyring calls and writes work. */
  datatype Faults = Faults(
    store: bool,      // storing the token at login
    clear: bool,      // deletes
    read: bool,       // reading the user's token while activating
    move: bool,       // moving it into the active slot
    readUser: bool, readSlot: bool,   // the two reads behind the active token
    restore: bool,    // putting the previous active token back
    write: bool)      // writing the configuration

  datatype Source = FromEnvironment | FromConfig | FromKeyring | FromDefault

  datatype AuthError = NoActiveUser | ForeignToken | MoveFailed | NoToken | WriteFailed

  const EMPTY_HOST := Host(None, None, None, [], map[])
  const WORKING := Faults(true, true, true, true, true, true, true, true)

  // ---------------------------------------------------------------- the configuration tree

  function HostOf(hosts: map<string, Host>, h: string): Host {
    if h in hosts then hosts[h] else EMPTY_HOST
  }

  function Lookup<K, V>(m: map<K, V>, k: K): Option<V> {
    if k in m then Some(m[k]) else None
  }

  function Listing(users: seq<string>, user: string): seq<string> {
    if user in users then users else users + [user]
  }

  function Without(users: seq<string>, user: string): seq<string> {
    if users == [] then []
    else if users[0] == user then Without(users[1..], user)
    else [users[0]] + Without(users[1..], user)
  }

  function FirstOther(users: seq<string>, user: string): Option<string> {
    if users == [] then None
    else if users[0] != user then Some(users[0])
    else FirstOther(users[1..], user)
  }

  // ---------------------------------------------------------------- reading

  /** The active token and where it comes from; `bareSource` is what the library underneath reports
      when there is none. */
  function ActiveToken(a: Auth, envToken: string, bareSource: Source, h: string, f: Faults): (string, Source) {
    var host := HostOf(a.hosts, h);
    if envToken != "" then (envToken, FromEnvironment)
    else if host.token.Some? && host.token.value != "" then (host.token.value, FromConfig)
    else if host.user.Some? && host.user.value != "" && f.readUser && (h, host.user.value) in a.keyring
    then (a.keyring[(h, host.user.value)], FromKeyring)
    else if f.readSlot && (h, "") in a.keyring then (a.keyring[(h, "")], FromKeyring)
    else ("", if host.token.Some? then FromConfig else bareSource)
  }

  /** What a caller observes with no token in the environment and a keyring that answers. */
  function ObservedToken(a: Auth, h: string): string {
    ActiveToken(a, "", FromDefault, h, WORKING).0
  }

  /** The lookup behind "token for user": the keyring first, then the configuration. */
  function TokenForUser(a: Auth, h: string, user: string): Option<string> {
    if (h, user) in a.keyring then Some(a.keyring[(h, user)]) else Lookup(HostOf(a.hosts, h).userTokens, user)
  }

  // ---------------------------------------------------------------- activating a user

  function Cleared(a: Auth, h: string, f: Faults): Auth {
    Auth(if h in a.hosts then a.hosts[h := a.hosts[h].(token := None)] else a.hosts,
         if f.clear then a.keyring - {(h, "")} else a.keyring)
  }

  function Activated(a: Auth, h: string, user: string, f: Faults): Result<Auth, (AuthError, Auth)> {
    var c := Cleared(a, h, f);
    var secret := if f.read then Lookup(c.keyring, (h, user)) else None;
    if secret.Some? && !f.move then Err((MoveFailed, c))
    else
      var keyring := if secret.Some? then c.keyring[(h, "") := secret.value] else c.keyring;
      var host := HostOf(c.hosts, h);
      var plain := Lookup(host.userTokens, user);
      if secret.None? && plain.None? then Err((NoToken, c))
      else
        var moved := if plain.Some? then host.(token := plain) else host;
        var done := Auth(c.hosts[h := moved.(user := Some(user))], keyring);
        if f.write then Ok(done) else Err((WriteFailed, done))
  }

  // ---------------------------------------------------------------- the three operations

  function StoresSecurely(secure: bool, f: Faults): bool {
    secure && f.store
  }

  /** Login before the new user is activated. */
  function Registered(
      a: Auth, h: string, user: string, token: string, gitProtocol: string, secure: bool, f: Faults): Auth {
    var host := HostOf(a.hosts, h);
    var tokens := if StoresSecurely(secure, f) then host.userTokens - {user} else host.userTokens[user := token];
    var protocol := if gitProtocol != "" then Some(gitProtocol) else host.gitProtocol;
    Auth(a.hosts[h := host.(userTokens := tokens, gitProtocol := protocol, users := Listing(host.users, user))],
         if StoresSecurely(secure, f) then a.keyring[(h, user) := token] else a.keyring)
  }

  function LoggedIn(a: Auth, h: string, user: string, token: string, gitProtocol: string, secure: bool, f: Faults):
    Result<Auth, (AuthError, Auth)>
  {
    Activated(Registered(a, h, user, token, gitProtocol, secure, f), h, user, f)
  }

  /** A failed switch puts the previous user back, and the previous token where it came from. */
  function Restored(a: Auth, h: string, user: string, token: string, source: Source, f: Faults): Auth {
    var host := HostOf(a.hosts, h);
    var slot := if source == FromConfig then Some(token) else host.token;
    Auth(a.hosts[h := host.(token := slot, user := Some(user))],
         if source == FromKeyring && f.restore then a.keyring[(h, "") := token] else a.keyring)
  }

  function Switched(a: Auth, envToken: string, bareSource: Source, h: string, user: string, f: Faults):
    Result<Auth, (AuthError, Auth)>
  {
    var previous := HostOf(a.hosts, h).user;
    if previous.None? then Err((NoActiveUser, a))
    else
      var (token, source) := ActiveToken(a, envToken, bareSource, h, f);
      if source != FromKeyring && source != FromConfig then Err((ForeignToken, a))
      else
        match Activated(a, h, user, f)
        case Ok(done) => Ok(done)
        case Err((error, broken)) => Err((error, Restored(broken, h, previous.value, token, source, f)))
  }

  /** No active user reads as the empty name. */
  function ActiveUser(host: Host): string {
    if host.user.Some? then host.user.value else ""
  }

  function LoggedOut(a: Auth, h: string, user: string, f: Faults): Result<Auth, (AuthError, Auth)> {
    var host := HostOf(a.hosts, h);
    if |host.users| < 2 then
      var gone := Auth(a.hosts - {h}, if f.clear then a.keyring - {(h, ""), (h, user)} else a.keyring);
      if f.write then Ok(gone) else Err((WriteFailed, gone))
    else
      var others := host.(users := Without(host.users, user), userTokens := host.userTokens - {user});
      var rest := Auth(a.hosts[h := others], a.keyring);
      if ActiveUser(host) != user then (if f.write then Ok(rest) else Err((WriteFailed, rest)))
      else
        var next := FirstOther(host.users, user);
        if next.None? then Err((NoToken, rest)) else Activated(rest, h, next.value, f)
  }

  // ---------------------------------------------------------------- the invariant

  /** The active user is listed, the host's token slot holds exactly the token stored under that user,
      and when it holds none the keyring's active slot holds that user's keyring token. */
  predicate HostOk(host: Host, h: string, keyring: map<(string, string), string>) {
    && NoDuplicates(host.users) && (forall user :: user in host.userTokens ==> user in host.users)
    && host.user.Some? && host.user.value in host.users
    && host.token == Lookup(host.userTokens, host.user.value)
    && (host.token.None? ==>
          (h, host.user.value) in keyring && Lookup(keyring, (h, "")) == Some(keyring[(h, host.user.value)]))
  }

  predicate Consistent(a: Auth) {
    forall h :: h in a.hosts ==> HostOk(a.hosts[h], h, a.keyring)
  }

  lemma OtherHostsStay(a: Auth, b: Auth, h: string, other: string)
    requires Consistent(a) && other != h && other in a.hosts && other in b.hosts && b.hosts[other] == a.hosts[other]
    requires forall user :: Lookup(b.keyring, (other, user)) == Lookup(a.keyring, (other, user))
    ensures HostOk(b.hosts[other], other, b.keyring)
  {
    assert HostOk(a.hosts[other], other, a.keyring);
    var user := a.hosts[other].user.value;
    assert Lookup(b.keyring, (other, user)) == Lookup(a.keyring, (other, user));
    assert Lookup(b.keyring, (other, "")) == Lookup(a.keyring, (other, ""));
  }

  /** Activating a listed user leaves the host in order, whatever it was in before. */
  lemma ActivationOk(a: Auth, h: string, user: string, f: Faults)
    requires Activated(a, h, user, f).Ok?
    requires h in a.hosts && NoDuplicates(a.hosts[h].users)
    requires forall u :: u in a.hosts[h].userTokens ==> u in a.hosts[h].users
    ensures var b := Activated(a, h, user, f).value;
            && b.hosts.Keys == a.hosts.Keys && b.hosts[h].user == Some(user)
            && (HostOk(b.hosts[h], h, b.keyring) <==> user in a.hosts[h].users)
  {
  }

  lemma ActivationIsLocal(a: Auth, h: string, user: string, f: Faults, other: string)
    requires Activated(a, h, user, f).Ok? && other != h
    ensures var b := Activated(a, h, user, f).value;
            && Lookup(b.hosts, other) == Lookup(a.hosts, other)
            && forall u :: Lookup(b.keyring, (other, u)) == Lookup(a.keyring, (other, u))
  {
  }

  /** The whole state is in order after an activation exactly when the user is a listed one. */
  lemma ActivationKeeps(a: Auth, h: string, user: string, f: Faults)
    requires Activated(a, h, user, f).Ok?
    requires h in a.hosts && NoDuplicates(a.hosts[h].users)
    requires forall u :: u in a.hosts[h].userTokens ==> u in a.hosts[h].users
    requires forall other :: other in a.hosts && other != h ==> HostOk(a.hosts[other], other, a.keyring)
    ensures Consistent(Activated(a, h, user, f).value) <==> user in a.hosts[h].users
  {
    var b := Activated(a, h, user, f).value;
    ActivationOk(a, h, user, f);
    forall other | other in b.hosts && other != h
      ensures HostOk(b.hosts[other], other, b.keyring)
    {
      ActivationIsLocal(a, h, user, f, other);
      var rest := Auth(a.hosts - {h}, a.keyring);
      OtherHostsStay(rest, b, h, other);
    }
  }

  // ---------------------------------------------------------------- every successful operation keeps it

  /** After a login the state is in order and the given user is the active one. */
  lemma LoginKeeps(a: Auth, h: string, user: string, token: string, gitProtocol: string, secure: bool, f: Faults)
    requires Consistent(a) && LoggedIn(a, h, user, token, gitProtocol, secure, f).Ok?
    ensures var b := LoggedIn(a, h, user, token, gitProtocol, secure, f).value;
            Consistent(b) && h in b.hosts && b.hosts[h].user == Some(user)
  {
    var r := Registered(a, h, user, token, gitProtocol, secure, f);
    if h in a.hosts { assert HostOk(a.hosts[h], h, a.keyring); }
    forall other | other in r.hosts && other != h
      ensures HostOk(r.hosts[other], other, r.keyring)
    {
      OtherHostsStay(a, r, h, other);
    }
    ActivationOk(r, h, user, f);
    ActivationKeeps(r, h, user, f);
  }

  /** After a login the active token is the one just given. An empty token, with a keyring that
      answers, is the one exception: it is masked exactly when it was not stored securely and the
      keyring still holds another token of that user. */
  lemma LoginActivatesItsToken(
      a: Auth, h: string, user: string, token: string, gitProtocol: string, secure: bool, f: Faults)
    requires LoggedIn(a, h, user, token, gitProtocol, secure, f).Ok?
    ensures var b := LoggedIn(a, h, user, token, gitProtocol, secure, f).value;
            && (token != "" ==> ObservedToken(b, h) == token)
            && (f == WORKING && user != "" ==>
                  (ObservedToken(b, h) == token <==>
                   token != "" || secure || Lookup(a.keyring, (h, user)) in {None, Some("")}))
  {
  }

  /** A successful switch keeps the state in order exactly when it names a listed user; a token left
      in the keyring by a user who logged out also lets a switch succeed. */
  lemma SwitchKeeps(a: Auth, envToken: string, bareSource: Source, h: string, user: string, f: Faults)
    requires Consistent(a) && Switched(a, envToken, bareSource, h, user, f).Ok?
    ensures h in a.hosts
    ensures var b := Switched(a, envToken, bareSource, h, user, f).value;
            && (Consistent(b) <==> user in a.hosts[h].users)
            && h in b.hosts && b.hosts[h].user == Some(user)
  {
    assert HostOk(a.hosts[h], h, a.keyring);
    ActivationOk(a, h, user, f);
    ActivationKeeps(a, h, user, f);
  }

  lemma {:induction false} WithoutFilters(users: seq<string>, user: string)
    requires NoDuplicates(users)
    ensures NoDuplicates(Without(users, user)) && forall u :: u in Without(users, user) <==> u in users && u != user
  {
    if users != [] {
      WithoutFilters(users[1..], user);
      var rest := Without(users[1..], user);
      assert forall u :: u in users <==> u == users[0] || u in users[1..];
      if users[0] != user {
        assert users[0] !in rest;
      }
    }
  }

  lemma {:induction false} FirstOtherExists(users: seq<string>, user: string)
    requires NoDuplicates(users) && |users| >= 2
    ensures FirstOther(users, user).Some?
    ensures FirstOther(users, user).value in users && FirstOther(users, user).value != user
  {
    if users[0] == user { assert users[1..][0] == users[1]; }
  }

  lemma LogoutKeeps(a: Auth, h: string, user: string, f: Faults)
    requires Consistent(a) && h in a.hosts && user in a.hosts[h].users && LoggedOut(a, h, user, f).Ok?
    ensures var b := LoggedOut(a, h, user, f).value;
            Consistent(b) && (h in b.hosts ==> user !in b.hosts[h].users && b.hosts[h].user != Some(user))
            && (h !in b.hosts <==> a.hosts[h].users == [user])
  {
    var b, host := LoggedOut(a, h, user, f).value, a.hosts[h];
    assert HostOk(host, h, a.keyring);
    if |host.users| < 2 {
      assert host.users == [user];
      forall other | other in b.hosts
        ensures HostOk(b.hosts[other], other, b.keyring)
      {
        OtherHostsStay(a, b, h, other);
      }
    } else {
      var others := host.(users := Without(host.users, user), userTokens := host.userTokens - {user});
      var rest := Auth(a.hosts[h := others], a.keyring);
      WithoutFilters(host.users, user);
      FirstOtherExists(host.users, user);
      forall other | other in rest.hosts && other != h
        ensures HostOk(rest.hosts[other], other, rest.keyring)
      {
        OtherHostsStay(a, rest, h, other);
      }
      if host.user == Some(user) {
        ActivationOk(rest, h, FirstOther(host.users, user).value, f);
        ActivationKeeps(rest, h, FirstOther(host.users, user).value, f);
      }
    }
  }

  // ---------------------------------------------------------------- whole sequences

  datatype Operation =
    | Login(h: string, user: string, token: string, gitProtocol: string, secure: bool)
    | SwitchUser(h: string, user: string)
    | Logout(h: string, user: string)

  function Performed(a: Auth, op: Operation, f: Faults): Result<Auth, (AuthError, Auth)> {
    match op
    case Login(h, user, token, gitProtocol, secure) => LoggedIn(a, h, user, token, gitProtocol, secure, f)
    case SwitchUser(h, user) => Switched(a, "", FromDefault, h, user, f)
    case Logout(h, user) => LoggedOut(a, h, user, f)
  }

  /** Each operation succeeds on the state before it, and switches and logouts name listed users. */
  ghost predicate Successful(a: Auth, ops: seq<(Operation, Faults)>)
    decreases |ops|
  {
    ops != [] ==>
      && (!ops[0].0.Login? ==> ops[0].0.h in a.hosts && ops[0].0.user in a.hosts[ops[0].0.h].users)
      && Performed(a, ops[0].0, ops[0].1).Ok?
      && Successful(Performed(a, ops[0].0, ops[0].1).value, ops[1..])
  }

  ghost function Outcome(a: Auth, ops: seq<(Operation, Faults)>): Auth
    requires Successful(a, ops)
    decreases |ops|
  {
    if ops == [] then a else Outcome(Performed(a, ops[0].0, ops[0].1).value, ops[1..])
  }

  /** Any sequence of successful logins, switches and logouts, whatever keyring calls failed on the
      way, keeps every active user listed and every active slot in agreement with its user's token. */
  lemma {:induction false} SequencesKeep(a: Auth, ops: seq<(Operation, Faults)>)
    requires Consistent(a) && Successful(a, ops)
    ensures Consistent(Outcome(a, ops))
    decreases |ops|
  {
    if ops != [] {
      var (op, f) := ops[0];
      match op {
        case Login(h, user, token, gitProtocol, secure) => LoginKeeps(a, h, user, token, gitProtocol, secure, f);
        case SwitchUser(h, user) => SwitchKeeps(a, "", FromDefault, h, user, f);
        case Logout(h, user) => LogoutKeeps(a, h, user, f);
      }
      SequencesKeep(Performed(a, op, f).value, ops[1..]);
    }
  }

  /** In a state in order, the active token is the active user's stored token. The two lookups for
      that token, by activity and by user, give the same answer exactly when the keyring and the
      configuration do not hold two different ones for the user. */
  lemma ActiveTokenIsStored(a: Auth, h: string)
    requires Consistent(a) && h in a.hosts && a.hosts[h].user != Some("") && a.hosts[h].token != Some("")
    ensures var user := a.hosts[h].user.value;
            && ObservedToken(a, h) == (if a.hosts[h].token.Some? then a.hosts[h].token.value else a.keyring[(h, user)])
            && TokenForUser(a, h, user).Some?
            && (ObservedToken(a, h) == TokenForUser(a, h, user).value <==>
                  (h, user) in a.keyring && user in a.hosts[h].userTokens ==>
                    a.keyring[(h, user)] == a.hosts[h].userTokens[user])
  {
    assert HostOk(a.hosts[h], h, a.keyring);
  }

  /** Logging in securely and then again with a plain-text token makes the two lookups disagree. */
  lemma LookupsCanDisagree() returns (ops: seq<(Operation, Faults)>)
    ensures Successful(Auth(map[], map[]), ops)
    ensures var a := Outcome(Auth(map[], map[]), ops);
            ObservedToken(a, "h") == "new" && TokenForUser(a, "h", "u") == Some("old")
  {
    var first := (Login("h", "u", "old", "", true), WORKING);
    var second := (Login("h", "u", "new", "", false), WORKING);
    ops := [first, second];
    var empty := Auth(map[], map[]);
    var a := Performed(empty, first.0, first.1).value;
    var b := Performed(a, second.0, second.1).value;
    assert ops[1..] == [second] && ops[1..][1..] == [];
    assert Outcome(a, [second]) == Outcome(b, []);
  }

  // ---------------------------------------------------------------- a failed switch

  /** A switch fails for want of a token, or because the keyring would not move it; failures of the
      final write are not considered. */
  predicate FailsEarly(r: Result<Auth, (AuthError, Auth)>) {
    r.Err? && !r.error.0.WriteFailed?
  }

  /** The active user survives such a failure, and so does the active token, exactly unless all of
      this happens: it was read from the active slot alone, the slot was cleared, and the write that
      puts it back fails. */
  lemma FailedSwitchRestores(a: Auth, bareSource: Source, h: string, user: string, f: Faults)
    requires FailsEarly(Switched(a, "", bareSource, h, user, f)) && f.readUser && f.readSlot
    ensures var b := Switched(a, "", bareSource, h, user, f).error.1;
            && HostOf(b.hosts, h).user == HostOf(a.hosts, h).user
            && (ObservedToken(b, h) == ObservedToken(a, h) <==>
                  var (token, source) := ActiveToken(a, "", bareSource, h, f);
                  var active := HostOf(a.hosts, h).user;
                  || source != FromKeyring || f.restore || !f.clear || active.None? || token == ""
                  || (active.value != "" && (h, active.value) in a.keyring))
  {
  }

  lemma ActivationFailsCleared(a: Auth, h: string, user: string, f: Faults)
    requires FailsEarly(Activated(a, h, user, f))
    ensures Activated(a, h, user, f).error.1 == Cleared(a, h, f)
  {
  }

  lemma RestoredUndoesCleared(a: Auth, bareSource: Source, h: string, f: Faults)
    requires h in a.hosts && HostOk(a.hosts[h], h, a.keyring) && f.readUser && f.restore
    requires a.hosts[h].token != Some("") && a.hosts[h].user != Some("")
    ensures var host := a.hosts[h];
            var (token, source) := ActiveToken(a, "", bareSource, h, f);
            var b := Restored(Cleared(a, h, f), h, host.user.value, token, source, f);
            && b.hosts == a.hosts
            && (b.keyring == a.keyring || (host.token.Some? && b.keyring == a.keyring - {(h, "")}))
  {
    var host := a.hosts[h];
    var (token, source) := ActiveToken(a, "", bareSource, h, f);
    assert source == if host.token.Some? then FromConfig else FromKeyring;
    assert source == FromKeyring ==> Lookup(a.keyring, (h, "")) == Some(token);
  }

  /** Nothing but the keyring's active slot of the host may differ from before the switch, and that
      only when the host's token is in the configuration. */
  lemma FailedSwitchUndoes(a: Auth, bareSource: Source, h: string, user: string, f: Faults)
    requires FailsEarly(Switched(a, "", bareSource, h, user, f)) && f.readUser && f.restore
    requires Consistent(a) && HostOf(a.hosts, h).token != Some("") && HostOf(a.hosts, h).user != Some("")
    ensures var b := Switched(a, "", bareSource, h, user, f).error.1;
            && b.hosts == a.hosts
            && (b.keyring == a.keyring || (HostOf(a.hosts, h).token.Some? && b.keyring == a.keyring - {(h, "")}))
  {
    if h in a.hosts && FailsEarly(Activated(a, h, user, f)) {
      RestoredUndoesCleared(a, bareSource, h, f);
      ActivationFailsCleared(a, h, user, f);
    }
  }

  /** Once the previous token is back, the whole state is in order again. */
  lemma FailedSwitchKeeps(a: Auth, bareSource: Source, h: string, user: string, f: Faults)
    requires FailsEarly(Switched(a, "", bareSource, h, user, f)) && f.readUser && f.restore
    requires Consistent(a) && HostOf(a.hosts, h).token != Some("") && HostOf(a.hosts, h).user != Some("")
    ensures Consistent(Switched(a, "", bareSource, h, user, f).error.1)
  {
    var b := Switched(a, "", bareSource, h, user, f).error.1;
    FailedSwitchUndoes(a, bareSource, h, user, f);
    UndoneIsConsistent(a, b, h);
  }

  lemma UndoneIsConsistent(a: Auth, b: Auth, h: string)
    requires Consistent(a) && b.hosts == a.hosts
    requires b.keyring == a.keyring || (HostOf(a.hosts, h).token.Some? && b.keyring == a.keyring - {(h, "")})
    ensures Consistent(b)
  {
    forall other | other in b.hosts
      ensures HostOk(b.hosts[other], other, b.keyring)
    {
      assert HostOk(a.hosts[other], other, a.keyring);
    }
  }

  // ---------------------------------------------------------------- the configuration object

  /** What a method reports, and the state it leaves, are those of the operation it runs. */
  predicate Agrees(r: Option<AuthError>, state: Auth, expected: Result<Auth, (AuthError, Auth)>) {
    match expected
    case Ok(b) => r.None? && state == b
    case Err((error, b)) => r == Some(error) && state == b
  }

  class AuthConfig {
    var hosts: map<string, Host>
    var keyring: map<(string, string), string>

    function State(): Auth
      reads this
    {
      Auth(hosts, keyring)
    }

    constructor (a: Auth)
      ensures State() == a
    {
      hosts, keyring := a.hosts, a.keyring;
    }

    method ClearActive(h: string, f: Faults)
      modifies this
      ensures State() == Cleared(old(State()), h, f)
    {
      if f.clear { keyring := keyring - {(h, "")}; }
      if h in hosts { hosts := hosts[h := hosts[h].(token := None)]; }
    }

    method RestorePrevious(h: string, user: string, token: string, source: Source, f: Faults)
      modifies this
      ensures State() == Restored(old(State()), h, user, token, source, f)
    {
      if source == FromKeyring && f.restore { keyring := keyring[(h, "") := token]; }
      if source == FromConfig { hosts := hosts[h := HostOf(hosts, h).(token := Some(token))]; }
      hosts := hosts[h := HostOf(hosts, h).(user := Some(user))];
    }

    method ActivateUser(h: string, user: string, f: Faults) returns (r: Option<AuthError>)
      modifies this
      ensures Agrees(r, State(), Activated(old(State()), h, user, f))
    {
      ClearActive(h, f);
      var switched := false;
      if f.read && (h, user) in keyring {
        if !f.move { return Some(MoveFailed); }
        keyring := keyring[(h, "") := keyring[(h, user)]];
        switched := true;
      }
      var host := HostOf(hosts, h);
      if user in host.userTokens {
        hosts := hosts[h := host.(token := Some(host.userTokens[user]))];
        switched := true;
      }
      if !switched { return Some(NoToken); }
      hosts := hosts[h := HostOf(hosts, h).(user := Some(user))];
      if !f.write { return Some(WriteFailed); }
      return None;
    }

    method Login(h: string, user: string, token: string, gitProtocol: string, secure: bool, f: Faults)
      returns (insecureStorageUsed: bool, r: Option<AuthError>)
      modifies this
      ensures Agrees(r, State(), LoggedIn(old(State()), h, user, token, gitProtocol, secure, f))
      ensures insecureStorageUsed == !StoresSecurely(secure, f)
      ensures r.None? && token != "" ==> ObservedToken(State(), h) == token
    {
      insecureStorageUsed := false;
      var stored := false;
      if secure && f.store {
        keyring := keyring[(h, user) := token];
        stored := true;
        if h in hosts { hosts := hosts[h := hosts[h].(userTokens := hosts[h].userTokens - {user})]; }
      }
      if !stored {
        var host := HostOf(hosts, h);
        hosts := hosts[h := host.(users := Listing(host.users, user), userTokens := host.userTokens[user := token])];
        insecureStorageUsed := true;
      }
      if gitProtocol != "" { hosts := hosts[h := HostOf(hosts, h).(gitProtocol := Some(gitProtocol))]; }
      if user !in HostOf(hosts, h).users {
        hosts := hosts[h := HostOf(hosts, h).(users := HostOf(hosts, h).users + [user])];
      }
      assert State() == Registered(old(State()), h, user, token, gitProtocol, secure, f);
      r := ActivateUser(h, user, f);
      if r.None? { LoginActivatesItsToken(old(State()), h, user, token, gitProtocol, secure, f); }
    }

    method SwitchUser(
        envToken: string, bareSource: Source, h: string, user: string, f: Faults)
      returns (r: Option<AuthError>)
      modifies this
      ensures Agrees(r, State(), Switched(old(State()), envToken, bareSource, h, user, f))
    {
      var previous := HostOf(hosts, h).user;
      if previous.None? { return Some(NoActiveUser); }
      var (token, source) := ActiveToken(State(), envToken, bareSource, h, f);
      if source != FromKeyring && source != FromConfig { return Some(ForeignToken); }
      r := ActivateUser(h, user, f);
      if r.Some? { RestorePrevious(h, previous.value, token, source, f); }
    }

    method Logout(h: string, user: string, f: Faults) returns (r: Option<AuthError>)
      requires NoDuplicates(HostOf(hosts, h).users)
      modifies this
      ensures Agrees(r, State(), LoggedOut(old(State()), h, user, f))
    {
      var users := HostOf(hosts, h).users;
      if |users| < 2 {
        hosts := hosts - {h};
        if f.clear {
          keyring := keyring - {(h, "")};
          keyring := keyring - {(h, user)};
        }
        return if f.write then None else Some(WriteFailed);
      }
      var host := hosts[h];
      hosts := hosts[h := host.(users := Without(host.users, user), userTokens := host.userTokens - {user})];
      if ActiveUser(hosts[h]) != user { return if f.write then None else Some(WriteFailed); }
      FirstOtherExists(users, user);
      r := ActivateUser(h, FirstOther(users, user).value, f);
    }
  }
}
