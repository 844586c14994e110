/** Importing connections from another host's configuration (internal/store/connections.go). */
module Import {
  import opened Prelude

  type ConnectionId = nat
  type Time = int

  datatype Connector = Connector(name: string, kind: string, endpoint: string)

  datatype Connection = Connection(connector: string, name: string, slug: string, authMethod: string, authName: string)

  datatype Credential = Credential(
    bearer: string, clientSecret: string, access: string, refresh: string, tokenType: string,
    expires: Option<Time>, environment: map<string, string>, headers: map<string, string>)
  {
    /** No secret material; an expiry or a token type alone is none. */
    predicate Empty() {
      bearer == "" && clientSecret == "" && access == "" && refresh == "" && environment == map[] && headers == map[]
    }
  }

  const NO_CREDENTIAL := Credential("", "", "", "", "", None, map[], map[])

  datatype OAuth = OAuth(
    authorizationUrl: string, tokenUrl: string, registrationUrl: string, scopes: string,
    clientId: string, tokenAuth: string, redirect: string)

  datatype Stdio = Stdio(executable: string, args: string, workingDirectory: string)

  datatype Input = Input(
    source: string, kind: string, connectorName: string, connectorSlug: string, endpoint: string,
    connectionName: string, connectionSlug: string, authMethod: string, authName: string,
    credential: Credential, oauth: Option<OAuth>, stdio: Option<Stdio>)

  /** The tables; `sources` is the unique index on connections.source_key. */
  datatype Db = Db(
    connectors: map<string, Connector>,
    connections: map<ConnectionId, Connection>,
    sources: map<string, ConnectionId>,
    credentials: map<ConnectionId, Credential>,
    oauths: map<ConnectionId, OAuth>,
    specs: map<ConnectionId, Stdio>)

  /** What is fixed from outside: the first bytes of a SHA-256 in hexadecimal, and the CHECK
      constraints of the tables, which read nothing but the values to be written. */
  datatype Env = Env(digest: (string, string) -> string, checks: Input -> bool)

  /** Neither the slug nor the name under a connector is shared. */
  predicate Distinct(a: Connection, b: Connection) {
    a.slug != b.slug && !(a.connector == b.connector && a.name == b.name)
  }

  ghost predicate Unique(connections: map<ConnectionId, Connection>) {
    forall i, j | i in connections && j in connections && i != j :: Distinct(connections[i], connections[j])
  }

  ghost predicate Indexed(sources: map<string, ConnectionId>, ids: set<ConnectionId>) {
    && (forall s | s in sources :: sources[s] in ids)
    && (forall s, t | s in sources && t in sources && s != t :: sources[s] != sources[t])
  }

  /** Keys and foreign keys. */
  ghost predicate Valid(db: Db) {
    && Indexed(db.sources, db.connections.Keys)
    && Unique(db.connections)
    && (forall i | i in db.connections :: db.connections[i].connector in db.connectors)
    && db.credentials.Keys <= db.connections.Keys
    && db.oauths.Keys <= db.connections.Keys
    && db.specs.Keys <= db.connections.Keys
  }

  // ---- One import, as a function ----------------------------------------------------

  predicate Describes(c: Connector, input: Input) {
    c.kind == input.kind && c.endpoint == input.endpoint
  }

  function Derived(input: Input, env: Env): string {
    input.connectorSlug + "-" + env.digest(input.kind, input.endpoint)
  }

  function ConnectorSlug(connectors: map<string, Connector>, input: Input, env: Env): string {
    if input.connectorSlug in connectors && !Describes(connectors[input.connectorSlug], input) then Derived(input, env)
    else input.connectorSlug
  }

  function WithConnector(connectors: map<string, Connector>, slug: string, input: Input): map<string, Connector> {
    if slug in connectors then connectors[slug := connectors[slug].(name := input.connectorName)]
    else connectors[slug := Connector(input.connectorName, input.kind, input.endpoint)]
  }

  /** The row that is inserted, or that the row of the same source becomes. */
  function NewRow(before: Option<Connection>, slug: string, input: Input): Connection {
    match before
    case None => Connection(slug, input.connectionName, input.connectionSlug, input.authMethod, input.authName)
    case Some(c) => Connection(slug, input.connectionName, c.slug, input.authMethod, input.authName)
  }

  /** Another connection already holds the slug, or the name under the same connector. */
  predicate Clashes(connections: map<ConnectionId, Connection>, id: ConnectionId, row: Connection) {
    exists j | j in connections && j != id :: !Distinct(connections[j], row)
  }

  function Lookup<K, V>(m: map<K, V>, k: K): Option<V> {
    if k in m then Some(m[k]) else None
  }

  /** An OAuth client that Toolmux registered itself: it has another redirect than the imported one. */
  predicate Owned(stored: Option<OAuth>, input: Input) {
    input.oauth.Some? && stored.Some? && stored.value.redirect != ""
      && stored.value.redirect != input.oauth.value.redirect
  }

  function CredentialAfter(stored: Option<Credential>, owned: bool, created: bool, input: Input): Option<Credential> {
    if owned then stored
    else if input.credential.Empty() then (if input.authMethod == "none" then None else stored)
    else if !created && input.credential.expires.Some? && Newer(stored, input.credential.expires.value) then stored
    else Some(input.credential)
  }

  /** The stored access token expires no earlier. */
  predicate Newer(stored: Option<Credential>, expires: Time) {
    stored.Some? && stored.value.access != "" && stored.value.expires.Some? && stored.value.expires.value >= expires
  }

  function OAuthAfter(stored: Option<OAuth>, owned: bool, input: Input): Option<OAuth> {
    match input.oauth
    case None => stored
    case Some(o) =>
      if owned && stored.Some? then
        Some(stored.value.(authorizationUrl := o.authorizationUrl, tokenUrl := o.tokenUrl,
                           registrationUrl := o.registrationUrl, scopes := o.scopes))
      else Some(o)
  }

  function SpecAfter(stored: Option<Stdio>, input: Input): Option<Stdio> {
    if input.stdio.Some? then input.stdio else stored
  }

  function Set<K, V>(m: map<K, V>, k: K, v: Option<V>): map<K, V> {
    match v
    case None => m - {k}
    case Some(x) => m[k := x]
  }

  /** The connection an import writes. */
  function Target(db: Db, input: Input, uuid: ConnectionId): ConnectionId {
    if input.source in db.sources then db.sources[input.source] else uuid
  }

  function TargetRow(db: Db, input: Input, uuid: ConnectionId, env: Env): Connection {
    NewRow(if input.source in db.sources then Lookup(db.connections, Target(db, input, uuid)) else None,
           ConnectorSlug(db.connectors, input, env), input)
  }

  predicate Rejected(db: Db, input: Input, uuid: ConnectionId, env: Env) {
    || !env.checks(input)
    || (input.source !in db.sources && uuid in db.connections)
    || Clashes(db.connections, Target(db, input, uuid), TargetRow(db, input, uuid, env))
  }

  predicate OwnedHere(db: Db, input: Input) {
    input.source in db.sources && Owned(Lookup(db.oauths, db.sources[input.source]), input)
  }

  /** What is written once no constraint stands against it. */
  function Written(db: Db, input: Input, id: ConnectionId, row: Connection): Db {
    var created, owned := input.source !in db.sources, OwnedHere(db, input);
    Db(WithConnector(db.connectors, row.connector, input),
       db.connections[id := row],
       db.sources[input.source := id],
       Set(db.credentials, id, CredentialAfter(Lookup(db.credentials, id), owned, created, input)),
       Set(db.oauths, id, OAuthAfter(Lookup(db.oauths, id), owned, input)),
       Set(db.specs, id, SpecAfter(Lookup(db.specs, id), input)))
  }

  /** ImportConnection; None stands for an error, which rolls everything back.  `uuid` is the
      identifier a new connection would get. */
  function Import(db: Db, input: Input, uuid: ConnectionId, env: Env): Option<Db> {
    if Rejected(db, input, uuid, env) then None
    else Some(Written(db, input, Target(db, input, uuid), TargetRow(db, input, uuid, env)))
  }

  // ---- The store --------------------------------------------------------------------

  class Store {
    const env: Env
    var connectors: map<string, Connector>
    var connections: map<ConnectionId, Connection>
    var sources: map<string, ConnectionId>
    var credentials: map<ConnectionId, Credential>
    var oauths: map<ConnectionId, OAuth>
    var specs: map<ConnectionId, Stdio>

    constructor (env: Env)
      ensures this.env == env && Tables() == Db(map[], map[], map[], map[], map[], map[])
    {
      this.env := env;
      connectors, connections, sources := map[], map[], map[];
      credentials, oauths, specs := map[], map[], map[];
    }

    function Tables(): Db
      reads this
    {
      Db(connectors, connections, sources, credentials, oauths, specs)
    }

    method Rollback(db: Db)
      modifies this
      ensures Tables() == db
    {
      connectors, connections, sources := db.connectors, db.connections, db.sources;
      credentials, oauths, specs := db.credentials, db.oauths, db.specs;
    }

    /** resolveConnectorSlug and the upsert of the connector. */
    method PutConnector(input: Input) returns (slug: string)
      modifies this`connectors
      ensures slug == ConnectorSlug(old(connectors), input, env)
      ensures connectors == WithConnector(old(connectors), slug, input)
    {
      slug := input.connectorSlug;
      if slug in connectors && (connectors[slug].kind != input.kind || connectors[slug].endpoint != input.endpoint) {
        slug := input.connectorSlug + "-" + env.digest(input.kind, input.endpoint);
      }
      if slug in connectors {
        connectors := connectors[slug := connectors[slug].(name := input.connectorName)];
      } else {
        connectors := connectors[slug := Connector(input.connectorName, input.kind, input.endpoint)];
      }
    }

    method PutCredential(id: ConnectionId, owned: bool, created: bool, input: Input)
      modifies this`credentials
      ensures credentials == Set(old(credentials), id,
        CredentialAfter(Lookup(old(credentials), id), owned, created, input))
    {
      if owned {
        return;
      }
      if input.credential.Empty() {
        if input.authMethod == "none" {
          credentials := credentials - {id};
        }
        return;
      }
      var write := true;
      if !created && input.credential.expires.Some? {
        var existing := if id in credentials then credentials[id] else NO_CREDENTIAL;
        if existing.access != "" && existing.expires.Some?
          && !(existing.expires.value < input.credential.expires.value) {
          write := false;
        }
      }
      if write {
        credentials := credentials[id := input.credential];
      }
    }

    method PutOAuth(id: ConnectionId, owned: bool, input: Input)
      requires owned ==> id in oauths
      modifies this`oauths
      ensures oauths == Set(old(oauths), id, OAuthAfter(Lookup(old(oauths), id), owned, input))
    {
      if input.oauth.Some? {
        var o := input.oauth.value;
        if owned {
          oauths := oauths[id := oauths[id].(authorizationUrl := o.authorizationUrl, tokenUrl := o.tokenUrl,
                                             registrationUrl := o.registrationUrl, scopes := o.scopes)];
        } else {
          oauths := oauths[id := o];
        }
      }
    }

    method PutSpec(id: ConnectionId, input: Input)
      modifies this`specs
      ensures specs == Set(old(specs), id, SpecAfter(Lookup(old(specs), id), input))
    {
      if input.stdio.Some? {
        specs := specs[id := input.stdio.value];
      }
    }

    /** Whether the stored OAuth client is Toolmux's own. */
    method OwnsOAuth(id: ConnectionId, input: Input) returns (owned: bool)
      ensures owned == Owned(Lookup(oauths, id), input)
    {
      owned := false;
      if input.oauth.Some? {
        var redirect := if id in oauths then oauths[id].redirect else "";
        owned := redirect != "" && redirect != input.oauth.value.redirect;
      }
    }

    /** The upserts of the connector and of the connection. */
    method PutConnection(input: Input, uuid: ConnectionId) returns (r: Option<ConnectionId>)
      requires forall s | s in sources :: sources[s] in connections
      modifies this`connectors, this`connections, this`sources
      ensures r.None? <==> Rejected(old(Tables()), input, uuid, env)
      ensures r.Some? ==>
        var id, row := Target(old(Tables()), input, uuid), TargetRow(old(Tables()), input, uuid, env);
        && r.value == id && connectors == WithConnector(old(connectors), row.connector, input)
        && connections == old(connections)[id := row] && sources == old(sources)[input.source := id]
    {
      ghost var saved := Tables();
      var slug := PutConnector(input);
      var created := input.source !in sources;
      var id := uuid;
      var row := Connection(slug, input.connectionName, input.connectionSlug, input.authMethod, input.authName);
      if !created {
        id := sources[input.source];
        row := row.(slug := connections[id].slug);
      }
      assert row == TargetRow(saved, input, uuid, env) && id == Target(saved, input, uuid);
      if !env.checks(input) || (created && uuid in connections) || Clashes(connections, id, row) {
        return None;
      }
      connections := connections[id := row];
      sources := sources[input.source := id];
      r := Some(id);
    }

    method ImportConnection(input: Input, uuid: ConnectionId) returns (r: Option<(ConnectionId, bool)>)
      requires Valid(Tables())
      modifies this
      ensures r.Some? <==> Import(old(Tables()), input, uuid, env).Some?
      ensures r.Some? ==> Import(old(Tables()), input, uuid, env) == Some(Tables())
      ensures r.Some? ==> r.value == (Target(old(Tables()), input, uuid), input.source !in old(sources))
      ensures r.None? ==> Tables() == old(Tables())
    {
      var saved := Tables();
      var id := PutConnection(input, uuid);
      if id.None? {
        Rollback(saved);
        return None;
      }
      var created := input.source !in saved.sources;
      var owned := false;
      if !created {
        owned := OwnsOAuth(id.value, input);
      }
      PutCredential(id.value, owned, created, input);
      PutOAuth(id.value, owned, input);
      PutSpec(id.value, input);
      assert Tables() == Written(saved, input, id.value, TargetRow(saved, input, uuid, env));
      r := Some((id.value, created));
    }
  }

  // ---- One import -------------------------------------------------------------------

  lemma SetLookup<K, V>(m: map<K, V>, k: K, v: Option<V>)
    ensures Lookup(Set(m, k, v), k) == v
    ensures forall j | j != k :: Lookup(Set(m, k, v), j) == Lookup(m, j)
    ensures Set(m, k, v).Keys <= m.Keys + {k}
  {
  }

  lemma RowKeepsUnique(connections: map<ConnectionId, Connection>, id: ConnectionId, row: Connection)
    requires Unique(connections) && !Clashes(connections, id, row)
    ensures Unique(connections[id := row])
  {
    var after := connections[id := row];
    forall i, j | i in after && j in after && i != j ensures Distinct(after[i], after[j]) {
      var k := if i == id then j else i;
      assert k in connections && Distinct(connections[k], row);
    }
  }

  lemma SourcesKept(sources: map<string, ConnectionId>, ids: set<ConnectionId>, source: string, id: ConnectionId)
    requires Indexed(sources, ids) && if source in sources then sources[source] == id else id !in ids
    ensures Indexed(sources[source := id], ids + {id})
  {
  }

  /** Keys and foreign keys survive. */
  lemma ImportKeepsValid(db: Db, input: Input, uuid: ConnectionId, env: Env)
    requires Valid(db) && Import(db, input, uuid, env).Some?
    ensures Valid(Import(db, input, uuid, env).value)
  {
    var id, row := Target(db, input, uuid), TargetRow(db, input, uuid, env);
    RowKeepsUnique(db.connections, id, row);
    SourcesKept(db.sources, db.connections.Keys, input.source, id);
    assert db.connections[id := row].Keys == db.connections.Keys + {id};
    SetLookup(db.credentials, id,
      CredentialAfter(Lookup(db.credentials, id), OwnedHere(db, input), input.source !in db.sources, input));
    SetLookup(db.oauths, id, OAuthAfter(Lookup(db.oauths, id), OwnedHere(db, input), input));
    SetLookup(db.specs, id, SpecAfter(Lookup(db.specs, id), input));
  }

  lemma WrittenAt(db: Db, input: Input, id: ConnectionId, row: Connection, j: ConnectionId)
    ensures var after := Written(db, input, id, row);
      && (j != id ==>
            && Lookup(after.connections, j) == Lookup(db.connections, j)
            && Lookup(after.credentials, j) == Lookup(db.credentials, j)
            && Lookup(after.oauths, j) == Lookup(db.oauths, j)
            && Lookup(after.specs, j) == Lookup(db.specs, j))
      && Lookup(after.credentials, id)
         == CredentialAfter(Lookup(db.credentials, id), OwnedHere(db, input), input.source !in db.sources, input)
      && Lookup(after.oauths, id) == OAuthAfter(Lookup(db.oauths, id), OwnedHere(db, input), input)
  {
    SetLookup(db.credentials, id,
      CredentialAfter(Lookup(db.credentials, id), OwnedHere(db, input), input.source !in db.sources, input));
    SetLookup(db.oauths, id, OAuthAfter(Lookup(db.oauths, id), OwnedHere(db, input), input));
    SetLookup(db.specs, id, SpecAfter(Lookup(db.specs, id), input));
  }

  /** No other connection is touched. */
  lemma ImportTouchesOne(db: Db, input: Input, uuid: ConnectionId, env: Env, j: ConnectionId)
    requires Import(db, input, uuid, env).Some? && j != Target(db, input, uuid)
    ensures var after := Import(db, input, uuid, env).value;
      && Lookup(after.connections, j) == Lookup(db.connections, j)
      && Lookup(after.credentials, j) == Lookup(db.credentials, j)
      && Lookup(after.oauths, j) == Lookup(db.oauths, j)
      && Lookup(after.specs, j) == Lookup(db.specs, j)
  {
    WrittenAt(db, input, Target(db, input, uuid), TargetRow(db, input, uuid, env), j);
  }

  /** Importing the same input again changes nothing, whatever came of it the first time. */
  lemma ImportTwice(db: Db, input: Input, uuid: ConnectionId, again: ConnectionId, env: Env)
    requires Valid(db) && Import(db, input, uuid, env).Some?
    ensures Import(Import(db, input, uuid, env).value, input, again, env) == Import(db, input, uuid, env)
  {
    var id, row := Target(db, input, uuid), TargetRow(db, input, uuid, env);
    var after := Written(db, input, id, row);
    assert Target(after, input, again) == id;
    assert ConnectorSlug(after.connectors, input, env) == row.connector;
    assert TargetRow(after, input, again, env) == row;
    assert !Clashes(after.connections, id, row);
    WrittenTwice(db, input, id, row);
  }

  lemma SetTwice<K, V>(m: map<K, V>, k: K, v: Option<V>)
    ensures Set(Set(m, k, v), k, v) == Set(m, k, v)
  {
  }

  lemma CredentialTwice(stored: Option<Credential>, owned: bool, created: bool, input: Input)
    requires created ==> !owned
    ensures var c := CredentialAfter(stored, owned, created, input); CredentialAfter(c, owned, false, input) == c
  {
  }

  lemma OAuthTwice(stored: Option<OAuth>, input: Input, created: bool)
    ensures var o := OAuthAfter(stored, !created && Owned(stored, input), input);
      Owned(o, input) == (!created && Owned(stored, input)) || input.oauth.None?
    ensures var o := OAuthAfter(stored, !created && Owned(stored, input), input);
      OAuthAfter(o, !created && Owned(stored, input), input) == o
  {
  }

  lemma WrittenTwice(db: Db, input: Input, id: ConnectionId, row: Connection)
    requires input.source in db.sources ==> db.sources[input.source] == id
    ensures Written(Written(db, input, id, row), input, id, row) == Written(db, input, id, row)
  {
    var after := Written(db, input, id, row);
    var created, owned := input.source !in db.sources, OwnedHere(db, input);
    var c := CredentialAfter(Lookup(db.credentials, id), owned, created, input);
    var o := OAuthAfter(Lookup(db.oauths, id), owned, input);
    var spec := SpecAfter(Lookup(db.specs, id), input);
    WrittenAt(db, input, id, row, id);
    SetLookup(db.specs, id, spec);
    OAuthTwice(Lookup(db.oauths, id), input, created);
    assert OwnedHere(after, input) == owned;
    CredentialTwice(Lookup(db.credentials, id), owned, created, input);
    SetTwice(db.credentials, id, c);
    SetTwice(db.oauths, id, o);
    SetTwice(db.specs, id, spec);
    ConnectorTwice(db.connectors, row.connector, input);
  }

  lemma ConnectorTwice(connectors: map<string, Connector>, slug: string, input: Input)
    ensures var after := WithConnector(connectors, slug, input); WithConnector(after, slug, input) == after
  {
  }

  /** After the import, the connection's connector describes the import. */
  predicate FitsTarget(db: Db, input: Input, uuid: ConnectionId, env: Env)
    requires Import(db, input, uuid, env).Some?
  {
    var after, id := Import(db, input, uuid, env).value, Target(db, input, uuid);
    && id in after.connections && after.connections[id].connector in after.connectors
    && Describes(after.connectors[after.connections[id].connector], input)
  }

  /** The connection ends up under a connector of the imported kind and endpoint, unless both the
      requested slug and the derived one already describe another. */
  lemma ConnectorFitsExactly(db: Db, input: Input, uuid: ConnectionId, env: Env)
    requires Import(db, input, uuid, env).Some?
    ensures FitsTarget(db, input, uuid, env) <==>
      || input.connectorSlug !in db.connectors
      || Describes(db.connectors[input.connectorSlug], input)
      || Derived(input, env) !in db.connectors
      || Describes(db.connectors[Derived(input, env)], input)
  {
    var slug := ConnectorSlug(db.connectors, input, env);
    assert TargetRow(db, input, uuid, env).connector == slug;
    NamedConnector(db.connectors, slug, input);
  }

  lemma NamedConnector(connectors: map<string, Connector>, slug: string, input: Input)
    ensures var after := WithConnector(connectors, slug, input);
      && slug in after
      && (Describes(after[slug], input) <==> slug !in connectors || Describes(connectors[slug], input))
      && (forall s | s in connectors ::
        s in after && after[s].kind == connectors[s].kind && after[s].endpoint == connectors[s].endpoint)
  {
  }

  /** For every import of a known source: the stored credential is as before exactly when Toolmux
      owns the client, or there is no secret in the import and nothing to delete, or the stored
      token expires no earlier, or it is the imported one. */
  lemma CredentialKeptExactly(db: Db, input: Input, uuid: ConnectionId, env: Env)
    requires input.source in db.sources && Import(db, input, uuid, env).Some?
    ensures var id := db.sources[input.source];
      var stored := Lookup(db.credentials, id);
      Lookup(Import(db, input, uuid, env).value.credentials, id) == stored <==>
        || OwnedHere(db, input)
        || (input.credential.Empty() && (input.authMethod != "none" || stored.None?))
        || (!input.credential.Empty() && input.credential.expires.Some?
            && stored.Some? && stored.value.access != "" && stored.value.expires.Some?
            && stored.value.expires.value >= input.credential.expires.value)
        || (!input.credential.Empty() && stored == Some(input.credential))
  {
    var id := db.sources[input.source];
    WrittenAt(db, input, id, TargetRow(db, input, uuid, env), id);
  }

  /** With a stored token that expires no earlier than the imported credential, that token stays,
      except that a credential with no secret in it and the method "none" removes it. */
  lemma NewerTokenKeptExactly(db: Db, input: Input, uuid: ConnectionId, env: Env)
    requires Import(db, input, uuid, env).Some? && input.source in db.sources && input.credential.expires.Some?
    requires Newer(Lookup(db.credentials, Target(db, input, uuid)), input.credential.expires.value)
    ensures var id := Target(db, input, uuid);
      Lookup(Import(db, input, uuid, env).value.credentials, id) == Lookup(db.credentials, id) <==>
        OwnedHere(db, input) || !(input.credential.Empty() && input.authMethod == "none")
  {
    CredentialKeptExactly(db, input, uuid, env);
  }

  /** Likewise for the client itself: its id, redirect and token method. */
  lemma ClientKeptExactly(db: Db, input: Input, uuid: ConnectionId, env: Env, like: OAuth)
    requires input.source in db.sources && Import(db, input, uuid, env).Some?
    requires Own(Lookup(db.oauths, db.sources[input.source]), like)
    ensures Own(Lookup(Import(db, input, uuid, env).value.oauths, db.sources[input.source]), like) <==>
      || input.oauth.None?
      || input.oauth.value.redirect != like.redirect
      || (input.oauth.value.clientId == like.clientId && input.oauth.value.tokenAuth == like.tokenAuth)
  {
    var id := db.sources[input.source];
    WrittenAt(db, input, id, TargetRow(db, input, uuid, env), id);
  }

  /** An import of a known source that names the connection as it is and says nothing of OAuth. */
  function Plain(db: Db, source: string, authMethod: string, authName: string, credential: Credential): Input
    requires source in db.sources && db.sources[source] in db.connections
    requires db.connections[db.sources[source]].connector in db.connectors
  {
    var row := db.connections[db.sources[source]];
    var c := db.connectors[row.connector];
    Input(source, c.kind, c.name, row.connector, c.endpoint, row.name, row.slug, authMethod, authName, credential,
      None, None)
  }

  lemma PlainAccepted(db: Db, source: string, authMethod: string, authName: string, credential: Credential,
                      uuid: ConnectionId, env: Env)
    requires Valid(db) && source in db.sources && env.checks(Plain(db, source, authMethod, authName, credential))
    ensures var input, id := Plain(db, source, authMethod, authName, credential), db.sources[source];
      && !Rejected(db, input, uuid, env) && Target(db, input, uuid) == id
      && Lookup(Import(db, input, uuid, env).value.credentials, id)
         == CredentialAfter(Lookup(db.credentials, id), false, false, input)
      && Lookup(Import(db, input, uuid, env).value.oauths, id) == Lookup(db.oauths, id)
  {
    var input, id := Plain(db, source, authMethod, authName, credential), db.sources[source];
    var row := TargetRow(db, input, uuid, env);
    assert row.connector == db.connections[id].connector && row.name == db.connections[id].name
      && row.slug == db.connections[id].slug;
    forall j | j in db.connections && j != id ensures Distinct(db.connections[j], row) {
      assert Distinct(db.connections[j], db.connections[id]);
    }
    WrittenAt(db, input, id, row, id);
  }

  /** Nothing of this is held back by a client that Toolmux registered: for every connection there
      is an import that puts any secret without expiry in place of what is stored, and leaves the
      client where it is. */
  lemma OwnTokenCanBeReplaced(db: Db, source: string, uuid: ConnectionId, env: Env, secret: Credential)
    requires Valid(db) && source in db.sources && !secret.Empty() && secret.expires.None?
    requires env.checks(Plain(db, source, "bearer", "", secret))
    ensures var id, after := db.sources[source], Import(db, Plain(db, source, "bearer", "", secret), uuid, env);
      && after.Some?
      && Lookup(after.value.oauths, id) == Lookup(db.oauths, id)
      && Lookup(after.value.credentials, id) == Some(secret)
  {
    PlainAccepted(db, source, "bearer", "", secret, uuid, env);
  }

  /** And one that deletes the stored token, whatever its expiry: an import without authorization
      and without a secret, also when it states a later or an earlier expiry. */
  lemma OwnTokenCanBeDeleted(db: Db, source: string, uuid: ConnectionId, env: Env, nothing: Credential)
    requires Valid(db) && source in db.sources && nothing.Empty()
    requires env.checks(Plain(db, source, "none", "", nothing))
    ensures var id, after := db.sources[source], Import(db, Plain(db, source, "none", "", nothing), uuid, env);
      && after.Some?
      && Lookup(after.value.oauths, id) == Lookup(db.oauths, id)
      && Lookup(after.value.credentials, id) == None
  {
    PlainAccepted(db, source, "none", "", nothing, uuid, env);
  }

  /** A credential without any secret differs from none at most in its token type and expiry. */
  lemma EmptyExactly(c: Credential)
    ensures c.Empty() <==> c == Credential("", "", "", "", c.tokenType, c.expires, map[], map[])
  {
  }

  /** What is not kept is deleted, or replaced by what is imported. */
  lemma CredentialExactly(db: Db, input: Input, uuid: ConnectionId, env: Env)
    requires Import(db, input, uuid, env).Some?
    ensures var id := Target(db, input, uuid);
      var was, row := Lookup(db.credentials, id), Lookup(Import(db, input, uuid, env).value.credentials, id);
      || row == was
      || (row == None && input.credential.Empty() && input.authMethod == "none")
      || (row == Some(input.credential) && !input.credential.Empty())
  {
    WrittenAt(db, input, Target(db, input, uuid), TargetRow(db, input, uuid, env), Target(db, input, uuid));
  }

  /** An import with an OAuth client stores its endpoints and scopes, whoever owns the stored client,
      and the rest of it unless that is owned; without one the stored client stays. */
  lemma ClientExactly(db: Db, input: Input, uuid: ConnectionId, env: Env)
    requires Import(db, input, uuid, env).Some?
    ensures var id := Target(db, input, uuid);
      var was, row := Lookup(db.oauths, id), Lookup(Import(db, input, uuid, env).value.oauths, id);
      if input.oauth.None? then row == was
      else
        && row.Some?
        && row.value.authorizationUrl == input.oauth.value.authorizationUrl
          && row.value.tokenUrl == input.oauth.value.tokenUrl
        && row.value.registrationUrl == input.oauth.value.registrationUrl
          && row.value.scopes == input.oauth.value.scopes
        && (!OwnedHere(db, input) ==>
              && row.value.clientId == input.oauth.value.clientId && row.value.redirect == input.oauth.value.redirect
              && row.value.tokenAuth == input.oauth.value.tokenAuth)
  {
    WrittenAt(db, input, Target(db, input, uuid), TargetRow(db, input, uuid, env), Target(db, input, uuid));
  }

  /** The imported connection and connector carry the imported names and authorization; a known
      connection keeps its slug, and its local command changes only when one is imported. */
  lemma RowsExactly(db: Db, input: Input, uuid: ConnectionId, env: Env)
    requires Valid(db) && Import(db, input, uuid, env).Some?
    ensures var id, after := Target(db, input, uuid), Import(db, input, uuid, env).value;
      && Lookup(after.sources, input.source) == Some(id) && id in after.connections
      && (forall s | s != input.source :: Lookup(after.sources, s) == Lookup(db.sources, s))
      && var row := after.connections[id];
      && row.name == input.connectionName && row.authMethod == input.authMethod && row.authName == input.authName
      && row.slug == (if input.source in db.sources then db.connections[id].slug else input.connectionSlug)
      && Lookup(after.specs, id) == (if input.stdio.Some? then input.stdio else Lookup(db.specs, id))
      && row.connector in after.connectors && after.connectors[row.connector].name == input.connectorName
      && (forall s | s in db.connectors && s != row.connector :: Lookup(after.connectors, s) == Some(db.connectors[s]))
  {
    SetLookup(db.specs, Target(db, input, uuid), SpecAfter(Lookup(db.specs, Target(db, input, uuid)), input));
    NamedConnector(db.connectors, TargetRow(db, input, uuid, env).connector, input);
  }

  /** When an import is accepted. */
  lemma AcceptedExactly(db: Db, input: Input, uuid: ConnectionId, env: Env)
    requires Valid(db)
    ensures Import(db, input, uuid, env).Some? <==>
      var id, connector := Target(db, input, uuid), ConnectorSlug(db.connectors, input, env);
      && env.checks(input)
      && (input.source !in db.sources ==>
            uuid !in db.connections && forall j | j in db.connections :: db.connections[j].slug != input.connectionSlug)
      && forall j | j in db.connections && j != id ::
           !(db.connections[j].connector == connector && db.connections[j].name == input.connectionName)
  {
    var id, row := Target(db, input, uuid), TargetRow(db, input, uuid, env);
    forall j | j in db.connections && j != id
      ensures Distinct(db.connections[j], row) <==>
        && (input.source !in db.sources ==> db.connections[j].slug != input.connectionSlug)
        && !(db.connections[j].connector == row.connector && db.connections[j].name == row.name)
    {
      if input.source in db.sources {
        assert Distinct(db.connections[j], db.connections[id]);
      }
    }
  }

  // ---- Any run of imports -----------------------------------------------------------

  datatype Attempt = Attempt(input: Input, uuid: ConnectionId)

  function Act(db: Db, a: Attempt, env: Env): Db {
    match Import(db, a.input, a.uuid, env)
    case None => db
    case Some(after) => after
  }

  function After(db: Db, run: seq<Attempt>, env: Env): Db
    decreases |run|
  {
    if run == [] then db else Act(After(db, run[..|run| - 1], env), run[|run| - 1], env)
  }

  const NO_TABLES := Db(map[], map[], map[], map[], map[], map[])

  /** The first import of a source whose connector slug is free. */
  lemma FirstImport(db: Db, input: Input, uuid: ConnectionId, env: Env)
    requires env.checks(input) && input.source !in db.sources && uuid !in db.connections
    requires input.connectorSlug !in db.connectors
    requires forall i | i in db.connections ::
      db.connections[i].slug != input.connectionSlug && db.connections[i].connector != input.connectorSlug
    ensures var after, slug := Import(db, input, uuid, env), input.connectorSlug;
      && after.Some?
      && after.value.connectors == db.connectors[slug := Connector(input.connectorName, input.kind, input.endpoint)]
      && after.value.connections == db.connections[uuid :=
           Connection(slug, input.connectionName, input.connectionSlug, input.authMethod, input.authName)]
      && after.value.sources == db.sources[input.source := uuid]
  {
  }

  /** Two imports into empty tables can take both slugs: `x` the requested one and `y` the derived
      one.  Then the third connection is attached to the connector of another endpoint. */
  lemma ForeignConnectorAttached(x: Input, i: ConnectionId, y: Input, j: ConnectionId, input: Input, k: ConnectionId,
                                 env: Env)
    requires env.checks(x) && env.checks(y) && env.checks(input)
    requires x.connectorSlug == input.connectorSlug && (x.kind != input.kind || x.endpoint != input.endpoint)
    requires y.connectorSlug == Derived(input, env) && (y.kind != input.kind || y.endpoint != input.endpoint)
    requires y.connectionName != input.connectionName && i != j && i != k && j != k
    requires x.source != y.source && x.source != input.source && y.source != input.source
    requires x.connectionSlug != y.connectionSlug
    requires x.connectionSlug != input.connectionSlug && y.connectionSlug != input.connectionSlug
    ensures var db := Act(Act(NO_TABLES, Attempt(x, i), env), Attempt(y, j), env);
      Import(db, input, k, env).Some? && !FitsTarget(db, input, k, env)
  {
    assert |Derived(input, env)| > |input.connectorSlug|;
    FirstImport(NO_TABLES, x, i, env);
    var one := Act(NO_TABLES, Attempt(x, i), env);
    FirstImport(one, y, j, env);
    var db := Act(one, Attempt(y, j), env);
    assert ConnectorSlug(db.connectors, input, env) == Derived(input, env);
    assert !Rejected(db, input, k, env);
    ConnectorFitsExactly(db, input, k, env);
  }

  lemma {:induction false} RunKeepsValid(db: Db, run: seq<Attempt>, env: Env)
    requires Valid(db)
    ensures Valid(After(db, run, env))
    decreases |run|
  {
    if run != [] {
      var n := |run| - 1;
      RunKeepsValid(db, run[..n], env);
      var before := After(db, run[..n], env);
      if Import(before, run[n].input, run[n].uuid, env).Some? {
        ImportKeepsValid(before, run[n].input, run[n].uuid, env);
      }
    }
  }

  /** No import ever changes the kind or the endpoint of a connector. */
  lemma {:induction false} ConnectorsKept(db: Db, run: seq<Attempt>, env: Env, slug: string)
    requires slug in db.connectors
    ensures var after := After(db, run, env).connectors;
      slug in after && after[slug].kind == db.connectors[slug].kind
        && after[slug].endpoint == db.connectors[slug].endpoint
    decreases |run|
  {
    if run != [] {
      var n := |run| - 1;
      ConnectorsKept(db, run[..n], env, slug);
      var before, input := After(db, run[..n], env), run[n].input;
      NamedConnector(before.connectors, TargetRow(before, input, run[n].uuid, env).connector, input);
    }
  }

  /** What an import does to the connection of `source`, if it is another's import. */
  lemma OthersLeaveAlone(db: Db, a: Attempt, env: Env, source: string)
    requires Valid(db) && source in db.sources && a.input.source != source
    ensures var id, after := db.sources[source], Act(db, a, env);
      && Lookup(after.sources, source) == Some(id)
      && Lookup(after.credentials, id) == Lookup(db.credentials, id)
      && Lookup(after.oauths, id) == Lookup(db.oauths, id)
  {
    if Import(db, a.input, a.uuid, env).Some? {
      assert Target(db, a.input, a.uuid) != db.sources[source];
      ImportTouchesOne(db, a.input, a.uuid, env, db.sources[source]);
    }
  }

  predicate Own(stored: Option<OAuth>, like: OAuth) {
    && stored.Some? && like.redirect != ""
    && stored.value.clientId == like.clientId && stored.value.redirect == like.redirect
      && stored.value.tokenAuth == like.tokenAuth
  }

  /** The imports of this source all carry an OAuth client with a redirect of their own. */
  predicate Foreign(a: Attempt, source: string, redirect: string) {
    a.input.source == source ==> a.input.oauth.Some? && a.input.oauth.value.redirect != redirect
  }

  lemma OwnStep(db: Db, a: Attempt, env: Env, source: string, like: OAuth)
    requires Valid(db) && source in db.sources && Own(Lookup(db.oauths, db.sources[source]), like)
    requires Foreign(a, source, like.redirect)
    ensures var id, after := db.sources[source], Act(db, a, env);
      && Lookup(after.sources, source) == Some(id)
      && Lookup(after.credentials, id) == Lookup(db.credentials, id)
      && Own(Lookup(after.oauths, id), like)
  {
    if a.input.source != source {
      OthersLeaveAlone(db, a, env, source);
    } else if Import(db, a.input, a.uuid, env).Some? {
      var id := db.sources[source];
      WrittenAt(db, a.input, id, TargetRow(db, a.input, a.uuid, env), id);
    }
  }

  /** Once the stored redirect is Toolmux's own and the imports carry another, no run of imports
      changes the client, the redirect, the token method or the credential. */
  lemma {:induction false} OwnClientKept(db: Db, run: seq<Attempt>, env: Env, source: string, like: OAuth)
    requires Valid(db) && source in db.sources && Own(Lookup(db.oauths, db.sources[source]), like)
    requires forall i | 0 <= i < |run| :: Foreign(run[i], source, like.redirect)
    ensures var id, after := db.sources[source], After(db, run, env);
      && Lookup(after.sources, source) == Some(id)
      && Lookup(after.credentials, id) == Lookup(db.credentials, id)
      && Own(Lookup(after.oauths, id), like)
    decreases |run|
  {
    if run != [] {
      var n := |run| - 1;
      OwnClientKept(db, run[..n], env, source, like);
      RunKeepsValid(db, run[..n], env);
      OwnStep(After(db, run[..n], env), run[n], env, source, like);
    }
  }

  /** The imports of this source all carry an access token and say when it expires. */
  predicate Timed(a: Attempt, source: string) {
    a.input.source == source ==> a.input.credential.access != "" && a.input.credential.expires.Some?
  }

  lemma TokenStep(db: Db, a: Attempt, env: Env, source: string, floor: Time)
    requires Valid(db) && source in db.sources && Timed(a, source)
    requires Newer(Lookup(db.credentials, db.sources[source]), floor)
    ensures var id, after := db.sources[source], Act(db, a, env);
      Lookup(after.sources, source) == Some(id) && Newer(Lookup(after.credentials, id), floor)
  {
    if a.input.source != source {
      OthersLeaveAlone(db, a, env, source);
    } else if Import(db, a.input, a.uuid, env).Some? {
      var id := db.sources[source];
      WrittenAt(db, a.input, id, TargetRow(db, a.input, a.uuid, env), id);
    }
  }

  /** As long as the imports of a source carry timed access tokens, the stored token never gives
      way to one that expires sooner. */
  lemma {:induction false} TokenNeverOlder(db: Db, run: seq<Attempt>, env: Env, source: string, floor: Time)
    requires Valid(db) && source in db.sources && Newer(Lookup(db.credentials, db.sources[source]), floor)
    requires forall i | 0 <= i < |run| :: Timed(run[i], source)
    ensures var id, after := db.sources[source], After(db, run, env);
      Lookup(after.sources, source) == Some(id) && Newer(Lookup(after.credentials, id), floor)
    decreases |run|
  {
    if run != [] {
      var n := |run| - 1;
      TokenNeverOlder(db, run[..n], env, source, floor);
      RunKeepsValid(db, run[..n], env);
      TokenStep(After(db, run[..n], env), run[n], env, source, floor);
    }
  }
}
