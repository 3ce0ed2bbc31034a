/**
 * Upstream credentials, sealed under a keyring and bound to their metadata. The cipher is ideal: what it
 * seals opens under the same key, nonce and associated data, and nothing else opens.
 */
module Credentials {
  import opened Wrappers

  datatype Settings = Settings(host: string, apiBase: string, apiVersion: string, resolution: string)

  datatype Ciphertext = Ciphertext(key: string, nonce: string, plaintext: string, associated: seq<string>)

  datatype Sealed = Sealed(keyId: string, nonce: string, ciphertext: Ciphertext)

  datatype Stored = Stored(id: string, name: string, settings: Settings, token: Sealed)

  /** `urlFits` says that the API base URL is a plain HTTPS URL of the upstream host. */
  datatype Request = Request(name: string, settings: Settings, token: string, urlFits: bool)

  /** The credentials by name, the keyring with its active key, and the credential each capability uses. */
  datatype Broker = Broker(rows: map<string, Stored>, keys: map<string, string>, active: string,
                           bound: map<string, string>)

  function AssociatedData(c: Stored, keyId: string): seq<string> {
    ["pgh-credential-v1", keyId, c.id, c.name, c.settings.host, c.settings.apiBase, c.settings.apiVersion,
     c.settings.resolution]
  }

  function Seal(keys: map<string, string>, active: string, c: Stored, plaintext: string, nonce: string): Sealed
    requires active in keys
  {
    Sealed(active, nonce, Ciphertext(keys[active], nonce, plaintext, AssociatedData(c, active)))
  }

  function Decrypt(keys: map<string, string>, c: Stored): Option<string> {
    if c.token.keyId !in keys then None
    else
      var t := c.token.ciphertext;
      if t.key == keys[c.token.keyId] && t.nonce == c.token.nonce && t.associated == AssociatedData(c, c.token.keyId)
      then Some(t.plaintext) else None
  }

  predicate Complete(r: Request) {
    && r.name != "" && r.settings.host != "" && r.token != "" && r.urlFits
    && r.settings.resolution in {"numeric-id", "owner-name"}
  }

  // ---------------------------------------------------------------- a put, in its two steps

  /** The identifier a put uses: that of the row it finds, or else the one it draws. */
  function ChosenId(b: Broker, name: string, drawn: Option<string>): Option<string> {
    if name in b.rows && b.rows[name].id != "" then Some(b.rows[name].id) else drawn
  }

  predicate IdTaken(rows: map<string, Stored>, id: string, name: string) {
    exists other :: other in rows && other != name && rows[other].id == id
  }

  /** The row written for a request sealed for `id`. A row that exists keeps its identifier; an
      identifier another row has is refused. */
  function Written(b: Broker, r: Request, id: string, nonce: string): Option<Broker>
    requires b.active in b.keys
  {
    var row := Stored(id, r.name, r.settings, Sealed("", "", Ciphertext("", "", "", [])));
    var token := Seal(b.keys, b.active, row, r.token, nonce);
    if r.name in b.rows then Some(b.(rows := b.rows[r.name := Stored(b.rows[r.name].id, r.name, r.settings, token)]))
    else if IdTaken(b.rows, id, r.name) then None
    else Some(b.(rows := b.rows[r.name := row.(token := token)]))
  }

  /** What is written opens to the given token exactly when the put sealed it for the identifier the row
      has by then: always unless another first put of the same name came between its two steps. */
  lemma WrittenOpensIff(b: Broker, r: Request, id: string, nonce: string)
    requires b.active in b.keys && Written(b, r, id, nonce).Some?
    ensures var row := Written(b, r, id, nonce).value.rows[r.name];
            && (Decrypt(b.keys, row) == Some(r.token) <==> (r.name in b.rows ==> b.rows[r.name].id == id))
            && (Decrypt(b.keys, row) != Some(r.token) ==> Decrypt(b.keys, row) == None)
  {
    var row := Written(b, r, id, nonce).value.rows[r.name];
    assert row.token.ciphertext.associated[2] == id && AssociatedData(row, b.active)[2] == row.id;
  }

  // ---------------------------------------------------------------- operations one after the other

  datatype Operation =
    | Put(r: Request, drawn: Option<string>, nonce: Option<string>)   // None: no randomness to be had
    | AddKey(keyId: string, key: string)                              // and make it the active one
    | Issue(capability: string, name: string)

  function PutResult(b: Broker, op: Operation): Option<Broker>
    requires op.Put? && b.active in b.keys
  {
    var id := ChosenId(b, op.r.name, op.drawn);
    if !Complete(op.r) || id.None? || op.nonce.None? then None else Written(b, op.r, id.value, op.nonce.value)
  }

  /** A put goes through exactly when it is complete, finds a nonce, and has an identifier: that of the row
      already there, or one drawn that no other credential has. */
  lemma PutSucceedsIff(b: Broker, r: Request, drawn: Option<string>, nonce: Option<string>)
    requires b.active in b.keys
    ensures PutResult(b, Put(r, drawn, nonce)).Some? <==>
            && r.name != "" && r.settings.host != "" && r.token != "" && r.urlFits && nonce.Some?
            && (r.settings.resolution == "numeric-id" || r.settings.resolution == "owner-name")
            && ((r.name in b.rows && b.rows[r.name].id != "")
                || (drawn.Some?
                    && (r.name in b.rows || forall other :: other in b.rows ==> b.rows[other].id != drawn.value)))
  {
  }

  /** What a put writes: the settings as given, under the kept or drawn identifier, sealed with the active key
      and the nonce. Every other row, the keys and the capabilities' bindings stay. */
  lemma PutWrites(b: Broker, r: Request, drawn: Option<string>, nonce: Option<string>)
    requires b.active in b.keys && PutResult(b, Put(r, drawn, nonce)).Some?
    ensures var c := PutResult(b, Put(r, drawn, nonce)).value;
            && c.keys == b.keys && c.active == b.active && c.bound == b.bound && c.rows.Keys == b.rows.Keys + {r.name}
            && (forall other :: other in b.rows && other != r.name ==> c.rows[other] == b.rows[other])
            && c.rows[r.name].name == r.name && c.rows[r.name].settings == r.settings
            && Some(c.rows[r.name].id) == (if r.name in b.rows then Some(b.rows[r.name].id) else drawn)
            && c.rows[r.name].token.keyId == b.active && Some(c.rows[r.name].token.nonce) == nonce
  {
  }

  /** The keyring only grows; a credential is used only if it opens. */
  function Step(b: Broker, op: Operation): Broker
    requires b.active in b.keys
  {
    match op
    case Put(_, _, _) => (var w := PutResult(b, op); if w.Some? then w.value else b)
    case AddKey(keyId, key) =>
      if keyId == "" || keyId in b.keys then b else b.(keys := b.keys[keyId := key], active := keyId)
    case Issue(capability, name) =>
      if name in b.rows && Decrypt(b.keys, b.rows[name]).Some? && capability !in b.bound
      then b.(bound := b.bound[capability := b.rows[name].id]) else b
  }

  /** A new key is the active one from then on; a capability is bound to the credential named, if that opens. */
  lemma StepDoes(b: Broker, op: Operation)
    requires b.active in b.keys && !op.Put?
    ensures var c := Step(b, op);
            && c.rows == b.rows
            && (op.AddKey? && op.keyId != "" && op.keyId !in b.keys ==>
                  c.keys == b.keys[op.keyId := op.key] && c.active == op.keyId && c.bound == b.bound)
            && (op.Issue? && op.capability !in b.bound
                && op.name in b.rows && Decrypt(b.keys, b.rows[op.name]).Some? ==>
                  c.bound == b.bound[op.capability := b.rows[op.name].id] && c.keys == b.keys)
  {
  }

  ghost function After(b: Broker, ops: seq<Operation>): Broker
    requires b.active in b.keys
    decreases |ops|
  {
    if ops == [] then b else StepKeepsActive(b, ops[0]); After(Step(b, ops[0]), ops[1..])
  }

  lemma StepKeepsActive(b: Broker, op: Operation)
    requires b.active in b.keys
    ensures Step(b, op).active in Step(b, op).keys
  {
  }

  /** The token last put under a name, by the operations themselves. */
  ghost function LastPut(b: Broker, ops: seq<Operation>, name: string, before: Option<string>): Option<string>
    requires b.active in b.keys
    decreases |ops|
  {
    if ops == [] then before
    else
      var op := ops[0];
      var now := if op.Put? && op.r.name == name && PutResult(b, op).Some? then Some(op.r.token) else before;
      StepKeepsActive(b, op);
      LastPut(Step(b, op), ops[1..], name, now)
  }

  // ---------------------------------------------------------------- what every sequence keeps

  predicate RowFits(b: Broker, name: string)
    requires name in b.rows
  {
    b.rows[name].name == name && b.rows[name].id != "" && Decrypt(b.keys, b.rows[name]).Some?
  }

  ghost predicate IdsDiffer(rows: map<string, Stored>) {
    forall a, c :: a in rows && c in rows && rows[a].id == rows[c].id ==> a == c
  }

  ghost predicate HasRow(rows: map<string, Stored>, id: string) {
    exists name :: name in rows && rows[name].id == id
  }

  ghost predicate Inv(b: Broker) {
    && b.active in b.keys
    && (forall name :: name in b.rows ==> RowFits(b, name))
    && IdsDiffer(b.rows)
    && forall capability :: capability in b.bound ==> HasRow(b.rows, b.bound[capability])
  }

  /** The drawn identifiers are never empty: they start with a fixed prefix. */
  predicate Drawn(op: Operation) {
    op.Put? && op.drawn.Some? ==> op.drawn.value != ""
  }

  lemma PutRow(b: Broker, op: Operation)
    requires Inv(b) && op.Put? && Drawn(op) && PutResult(b, op).Some?
    ensures var c, name := Step(b, op), op.r.name;
            && name in c.rows && RowFits(c, name) && Decrypt(c.keys, c.rows[name]) == Some(op.r.token)
            && (name in b.rows ==> c.rows[name].id == b.rows[name].id)
            && (name !in b.rows ==> !IdTaken(b.rows, c.rows[name].id, name))
            && c.rows - {name} == b.rows - {name} && c.keys == b.keys && c.bound == b.bound && c.active == b.active
  {
    var id := ChosenId(b, op.r.name, op.drawn).value;
    WrittenOpensIff(b, op.r, id, op.nonce.value);
    var c := Step(b, op);
    assert c.rows - {op.r.name} == b.rows - {op.r.name};
    if op.r.name in b.rows { assert RowFits(b, op.r.name); }
  }

  lemma OtherRow(b: Broker, c: Broker, name: string, other: string)
    requires c.rows - {name} == b.rows - {name} && other != name
    ensures other in c.rows <==> other in b.rows
    ensures other in b.rows ==> c.rows[other] == b.rows[other]
  {
    assert other in b.rows - {name} <==> other in b.rows;
    assert other in c.rows - {name} <==> other in c.rows;
    if other in b.rows { assert (c.rows - {name})[other] == (b.rows - {name})[other]; }
  }

  lemma PutKeepsIds(b: Broker, op: Operation)
    requires Inv(b) && op.Put? && Drawn(op) && PutResult(b, op).Some?
    ensures IdsDiffer(Step(b, op).rows) && forall id :: HasRow(b.rows, id) ==> HasRow(Step(b, op).rows, id)
  {
    var c, name := Step(b, op), op.r.name;
    PutRow(b, op);
    forall x, y | x in c.rows && y in c.rows && c.rows[x].id == c.rows[y].id
      ensures x == y
    {
      if x != name { OtherRow(b, c, name, x); }
      if y != name { OtherRow(b, c, name, y); }
    }
    forall id | HasRow(b.rows, id)
      ensures HasRow(c.rows, id)
    {
      var n :| n in b.rows && b.rows[n].id == id;
      if n != name { OtherRow(b, c, name, n); }
      assert n in c.rows && c.rows[n].id == id;
    }
  }

  lemma StepKeepsInv(b: Broker, op: Operation)
    requires Inv(b) && Drawn(op)
    ensures Inv(Step(b, op))
  {
    var c := Step(b, op);
    match op {
      case Put(r, _, _) =>
        if PutResult(b, op).Some? {
          PutRow(b, op);
          PutKeepsIds(b, op);
          forall name | name in c.rows
            ensures RowFits(c, name)
          {
            if name != r.name {
              OtherRow(b, c, r.name, name);
              assert RowFits(b, name);
            }
          }
        }
      case AddKey(keyId, key) =>
        forall name | name in c.rows
          ensures RowFits(c, name)
        {
          assert RowFits(b, name);
        }
      case Issue(capability, name) =>
        forall other | other in c.rows
          ensures RowFits(c, other)
        {
          assert RowFits(b, other);
        }
        if name in b.rows { assert HasRow(b.rows, b.rows[name].id); }
    }
  }

  /** What one operation does to a name: its row stays, with its identifier, and opens to the token just
      put under it, or to the one it opened to before. */
  lemma StepAt(b: Broker, op: Operation, name: string)
    requires Inv(b) && Drawn(op)
    ensures var c := Step(b, op);
            var put := op.Put? && op.r.name == name && PutResult(b, op).Some?;
            && (name in c.rows <==> name in b.rows || put)
            && (name in b.rows ==> c.rows[name].id == b.rows[name].id)
            && (name in c.rows ==>
                  Decrypt(c.keys, c.rows[name]) == (if put then Some(op.r.token) else Decrypt(b.keys, b.rows[name])))
            && forall capability :: capability in b.bound ==>
                 capability in c.bound && c.bound[capability] == b.bound[capability]
  {
    var c := Step(b, op);
    if op.Put? && PutResult(b, op).Some? {
      PutRow(b, op);
      if name != op.r.name { OtherRow(b, c, op.r.name, name); }
    } else if name in b.rows {
      assert RowFits(b, name);
    }
  }

  /** After any sequence of puts, new keys and issued capabilities, every stored credential opens to the
      token last put under its name, and has kept its identifier. */
  lemma {:induction false} EveryCredentialOpens(b: Broker, ops: seq<Operation>, name: string)
    requires Inv(b) && forall i :: 0 <= i < |ops| ==> Drawn(ops[i])
    ensures var c, before := After(b, ops), if name in b.rows then Decrypt(b.keys, b.rows[name]) else None;
            && Inv(c)
            && (name in c.rows <==> LastPut(b, ops, name, before).Some?)
            && (name in c.rows ==> Decrypt(c.keys, c.rows[name]) == LastPut(b, ops, name, before))
            && (name in b.rows ==> name in c.rows && c.rows[name].id == b.rows[name].id)
            && forall capability :: capability in b.bound ==>
                 capability in c.bound && c.bound[capability] == b.bound[capability]
    decreases |ops|
  {
    if ops == [] {
      if name in b.rows { assert RowFits(b, name); }
    } else {
      StepKeepsInv(b, ops[0]);
      StepAt(b, ops[0], name);
      EveryCredentialOpens(Step(b, ops[0]), ops[1..], name);
    }
  }

  /** A capability keeps its credential: whatever is put later, under whatever keys, the credential it was
      issued for is still stored, and opens to the token last put under that credential's name. */
  lemma CapabilitiesStillDecrypt(b: Broker, ops: seq<Operation>, capability: string) returns (name: string)
    requires Inv(b) && capability in b.bound && forall i :: 0 <= i < |ops| ==> Drawn(ops[i])
    ensures name in b.rows && b.rows[name].id == b.bound[capability]
    ensures var c := After(b, ops);
            && capability in c.bound && name in c.rows && c.rows[name].id == c.bound[capability] == b.bound[capability]
            && Decrypt(c.keys, c.rows[name]) == LastPut(b, ops, name, Decrypt(b.keys, b.rows[name]))
            && Decrypt(c.keys, c.rows[name]).Some?
  {
    assert HasRow(b.rows, b.bound[capability]);
    name :| name in b.rows && b.rows[name].id == b.bound[capability];
    EveryCredentialOpens(b, ops, name);
    assert RowFits(After(b, ops), name);
  }

  lemma EmptyBrokerFits(key: string, keyId: string)
    ensures Inv(Broker(map[], map[keyId := key], keyId, map[]))
  {
  }

  // ---------------------------------------------------------------- the service

  class AdminService {
    var state: Broker

    constructor (keyId: string, key: string)
      ensures state == Broker(map[], map[keyId := key], keyId, map[]) && Inv(state)
    {
      state := Broker(map[], map[keyId := key], keyId, map[]);
      new;
      EmptyBrokerFits(key, keyId);
    }

    method PutCredential(r: Request, drawn: Option<string>, nonce: Option<string>) returns (ok: bool)
      requires state.active in state.keys
      modifies this
      ensures ok == PutResult(old(state), Put(r, drawn, nonce)).Some?
      ensures state == Step(old(state), Put(r, drawn, nonce))
      ensures Inv(old(state)) && drawn != Some("") ==> Inv(state)
    {
      if Inv(state) && drawn != Some("") { StepKeepsInv(state, Put(r, drawn, nonce)); }
      if r.name == "" || r.settings.host == "" || |r.token| == 0 { return false; }
      if r.settings.resolution != "numeric-id" && r.settings.resolution != "owner-name" { return false; }
      if !r.urlFits { return false; }
      var credentialId := "";
      if r.name in state.rows { credentialId := state.rows[r.name].id; }
      if credentialId == "" {
        if drawn.None? { return false; }
        credentialId := drawn.value;
      }
      if nonce.None? { return false; }
      var written := Written(state, r, credentialId, nonce.value);
      if written.None? { return false; }
      state := written.value;
      return true;
    }
  }
}
