/**
 * What a successful login, switch or logout changes, and that it changes nothing else: told about the states
 * before and after.
 */
module AccountChanges {
  import opened Wrappers
  import opened Strings
  import opened AuthState

  /** Every other host, and every keyring entry but those of the given users of this host, is as it was. */
  ghost predicate OnlyTouches(a: Auth, b: Auth, h: string, users: set<string>) {
    && (forall other :: other != h ==> Lookup(b.hosts, other) == Lookup(a.hosts, other))
    && (forall host, user :: host != h || user !in users ==>
          Lookup(b.keyring, (host, user)) == Lookup(a.keyring, (host, user)))
  }

  /** The active slot of the keyring holds the user's own entry; without one it is empty, or as it was if it
      could not be cleared. */
  ghost predicate SlotFollows(before: Auth, b: Auth, h: string, user: string, f: Faults) {
    Lookup(b.keyring, (h, "")) ==
    if f.read && (h, user) in before.keyring then Some(before.keyring[(h, user)])
    else if f.clear then None
    else Lookup(before.keyring, (h, ""))
  }

  /** A user can be activated: a token of theirs is found, what is found in the keyring can be moved, and the
      configuration can be written. */
  ghost predicate CanActivate(a: Auth, h: string, user: string, f: Faults) {
    && f.write
    && ((f.read && (h, user) in a.keyring) || user in HostOf(a.hosts, h).userTokens)
    && (f.read && (h, user) in a.keyring ==> f.move)
  }

  lemma ActivationChanges(a: Auth, h: string, user: string, f: Faults)
    requires user != ""
    ensures Activated(a, h, user, f).Ok? <==> CanActivate(a, h, user, f)
    ensures Activated(a, h, user, f).Ok? ==>
              var b := Activated(a, h, user, f).value;
              && h in b.hosts && OnlyTouches(a, b, h, {""}) && SlotFollows(a, b, h, user, f)
              && b.hosts[h] == HostOf(a.hosts, h).(user := Some(user),
                                                   token := Lookup(HostOf(a.hosts, h).userTokens, user))
  {
  }

  /** The token in use: the environment's, else the configuration's, else the active user's in the keyring,
      else the active slot's. */
  lemma TokenInUse(a: Auth, envToken: string, bareSource: Source, h: string, f: Faults)
    ensures var (token, source) := ActiveToken(a, envToken, bareSource, h, f);
            var host := HostOf(a.hosts, h);
            && (bareSource != FromEnvironment ==> (source == FromEnvironment <==> envToken != ""))
            && (envToken != "" ==> token == envToken)
            && (envToken == "" && host.token.Some? && host.token.value != "" ==> token == host.token.value)
            && (token != "" ==>
                  || token == envToken || host.token == Some(token) || Lookup(a.keyring, (h, "")) == Some(token)
                  || Lookup(a.keyring, (h, ActiveUser(host))) == Some(token))
  {
  }

  // ---------------------------------------------------------------- login

  /** A login stores the token with its user, in the keyring if it can and may, puts the user last in the
      listing if new, and makes that user the active one. */
  lemma LoginChanges(a: Auth, h: string, user: string, token: string, gitProtocol: string, secure: bool, f: Faults)
    requires user != ""
    ensures LoggedIn(a, h, user, token, gitProtocol, secure, f).Ok? <==>
            && f.write && (secure && f.store ==> f.read)
            && (f.read && ((secure && f.store) || (h, user) in a.keyring) ==> f.move)
    ensures LoggedIn(a, h, user, token, gitProtocol, secure, f).Ok? ==>
              var b, before := LoggedIn(a, h, user, token, gitProtocol, secure, f).value, HostOf(a.hosts, h);
              && h in b.hosts && OnlyTouches(a, b, h, {"", user})
              && var host := b.hosts[h];
              && host.user == Some(user)
              && host.users == (if user in before.users then before.users else before.users + [user])
              && host.gitProtocol == (if gitProtocol == "" then before.gitProtocol else Some(gitProtocol))
              && (forall u :: u != user ==> Lookup(host.userTokens, u) == Lookup(before.userTokens, u))
              && host.token == Lookup(host.userTokens, user)
              && if secure && f.store
                 then user !in host.userTokens
                      && Lookup(b.keyring, (h, user)) == Lookup(b.keyring, (h, "")) == Some(token)
                 else Lookup(host.userTokens, user) == Some(token)
                      && Lookup(b.keyring, (h, user)) == Lookup(a.keyring, (h, user)) && SlotFollows(a, b, h, user, f)
  {
    ActivationChanges(Registered(a, h, user, token, gitProtocol, secure, f), h, user, f);
  }

  // ---------------------------------------------------------------- switch

  /** A token of the host is found in the configuration or in the keyring, the active user's or an active
      slot's. */
  ghost predicate HasStoredToken(a: Auth, h: string, f: Faults) {
    var host := HostOf(a.hosts, h);
    || host.token.Some?
    || (f.readUser && host.user.Some? && host.user.value != "" && (h, host.user.value) in a.keyring)
    || (f.readSlot && (h, "") in a.keyring)
  }

  /** A switch makes the user the active one, with the user's own token in the active slots; listing, stored
      tokens and protocol stay. It is refused without an active user, with a token in the environment or
      none stored, and when there is nothing to activate. */
  lemma SwitchChanges(a: Auth, envToken: string, bareSource: Source, h: string, user: string, f: Faults)
    requires user != ""
    ensures Switched(a, envToken, bareSource, h, user, f).Ok? <==>
            && HostOf(a.hosts, h).user.Some? && CanActivate(a, h, user, f)
            && envToken == "" && (HasStoredToken(a, h, f) || bareSource in {FromKeyring, FromConfig})
    ensures Switched(a, envToken, bareSource, h, user, f).Ok? ==>
              var b, before := Switched(a, envToken, bareSource, h, user, f).value, HostOf(a.hosts, h);
              && h in b.hosts && OnlyTouches(a, b, h, {""}) && SlotFollows(a, b, h, user, f)
              && b.hosts[h] == before.(user := Some(user), token := Lookup(before.userTokens, user))
  {
    ActivationChanges(a, h, user, f);
  }

  // ---------------------------------------------------------------- logout

  lemma {:induction false} WithoutOne(users: seq<string>, i: nat)
    requires NoDuplicates(users) && i < |users|
    ensures Without(users, users[i]) == users[..i] + users[i + 1..]
  {
    if i == 0 {
      WithoutNone(users[1..], users[0]);
      assert users[..0] + users[0 + 1..] == users[1..];
    } else {
      WithoutOne(users[1..], i - 1);
      assert users[0] != users[i] && users[..i] == [users[0]] + users[1..][..i - 1];
      assert users[1..][i - 1 + 1..] == users[i + 1..];
    }
  }

  lemma {:induction false} WithoutNone(users: seq<string>, user: string)
    requires user !in users
    ensures Without(users, user) == users
  {
    if users != [] {
      WithoutNone(users[1..], user);
      assert [users[0]] + users[1..] == users;
    }
  }

  /** The first user in the listing who is not this one. */
  function Next(users: seq<string>, user: string): string
    requires |users| >= 2
  {
    if users[0] != user then users[0] else users[1]
  }

  lemma FirstOtherIsNext(users: seq<string>, user: string)
    requires NoDuplicates(users) && |users| >= 2
    ensures FirstOther(users, user) == Some(Next(users, user))
  {
    if users[0] == user { assert users[1..][0] == users[1]; }
  }

  /** Logging the last user out takes the host away, and with it that user's keyring entries. */
  lemma LastLogoutChanges(a: Auth, h: string, user: string, f: Faults)
    requires |HostOf(a.hosts, h).users| < 2
    ensures LoggedOut(a, h, user, f).Ok? <==> f.write
    ensures f.write ==>
              var b := LoggedOut(a, h, user, f).value;
              && h !in b.hosts && OnlyTouches(a, b, h, {"", user})
              && (f.clear ==> (h, "") !in b.keyring && (h, user) !in b.keyring)
              && (!f.clear ==> b.keyring == a.keyring)
  {
  }

  /** Logging out one of several users takes that user off the listing, and nobody else. Whoever was active
      stays so, with the same token in the same slots; only when the user logged out was active does the first
      of the others take over. */
  lemma LogoutChanges(a: Auth, h: string, i: nat, f: Faults)
    requires h in a.hosts && NoDuplicates(a.hosts[h].users) && |a.hosts[h].users| >= 2
    requires "" !in a.hosts[h].users && i < |a.hosts[h].users|
    ensures var before := a.hosts[h];
            var user, next := before.users[i], Next(before.users, before.users[i]);
            LoggedOut(a, h, user, f).Ok? <==> if before.user == Some(user) then CanActivate(a, h, next, f) else f.write
    ensures var before := a.hosts[h];
            var user, next := before.users[i], Next(before.users, before.users[i]);
            LoggedOut(a, h, user, f).Ok? ==>
              var b := LoggedOut(a, h, user, f).value;
              && h in b.hosts
              && b.hosts[h].users == before.users[..i] + before.users[i + 1..]
              && user !in b.hosts[h].userTokens
              && (forall u :: u != user ==> Lookup(b.hosts[h].userTokens, u) == Lookup(before.userTokens, u))
              && b.hosts[h].gitProtocol == before.gitProtocol
              && OnlyTouches(a, b, h, {""})
              && if before.user == Some(user)
                 then b.hosts[h].user == Some(next) && b.hosts[h].token == Lookup(before.userTokens, next)
                      && SlotFollows(a, b, h, next, f)
                 else b.hosts[h].user == before.user && b.hosts[h].token == before.token && b.keyring == a.keyring
  {
    var before := a.hosts[h];
    var user := before.users[i];
    var others := before.(users := Without(before.users, user), userTokens := before.userTokens - {user});
    WithoutOne(before.users, i);
    FirstOtherIsNext(before.users, user);
    assert user in before.users && Next(before.users, user) in before.users;
    assert Next(before.users, user) != user by {
      if before.users[0] == user { assert before.users[1] != before.users[0]; }
    }
    ActivationChanges(Auth(a.hosts[h := others], a.keyring), h, Next(before.users, user), f);
  }
}
