# Verified model of Toolmux

Toolmux brokers access for AI agents: it decides which tools an agent may call, holds the
credentials those tools need, forwards model calls, and keeps a small fleet of agent gateways
alive. This project models the parts of it whose correctness depends on every interleaving, every
history or every byte of input, and proves what they promise.

| file | what it models |
|---|---|
| `AccessState.dfy` | the tables `tools`, `grants` and `agent_connections` and the transactions that change them |
| `Import.dfy` | importing a connection with its connector, credential and OAuth client |
| `TokenCache.dfy` | the bounded single-flight cache of client-credentials tokens |
| `OAuthRefresh.dfy` | serialized refresh of rotating OAuth tokens |
| `Rotation.dfy`, `RotationProtocol.dfy` | finding and rewriting agent tokens in files; the issue, write, revoke order |
| `Meter.dfy` | the incremental usage meter of a streamed response and the loop that forwards it |
| `EventStream.dfy` | reading a JSON-RPC response out of an event stream |
| `Base64.dfy`, `Headers.dfy`, `Paging.dfy` | the header codec, exposed tool names, cursors and the loop that follows them |
| `Alerts.dfy`, `Deliveries.dfy` | transition alerts and the leased delivery queue |
| `Administrators.dfy`, `LoginLimit.dfy` | user changes under one lock; the login attempt counter and whom it admits |
| `Catalog.dfy` | the model catalog and the names agents use |
| `Supervisor.dfy` | the restart limiter of the fleet supervisor |
| `Gws.dfy` | the normal form of Google Workspace requests |
| `Prelude.dfy`, `Bytes.dfy` | shared datatypes; the split of a byte stream into lines |

How it is built. A table is a map or a set, and a committed transaction is one step on it; what
the program updates in place is a class whose methods are proved against a function, and the
properties are proved about that function. Goroutines, workers and transactions that interleave
are threads with a program counter: a run is any sequence of actions that the state allows, so
each lemma about reachable states quantifies over every interleaving, with the clock, the remote
server, crashes and other programs as adversaries. Times are integers (seconds or nanoseconds);
64-bit wrap-around of durations is written out where it matters. Library functions that are not
Toolmux's own (JSON, `strings.TrimSpace`, SHA-256) are parameters of the functions that use them.

Where the code does not meet what its own documentation or a natural reading promises, the code is
kept as it is, a lemma builds the failing case, and another says exactly when the promise holds:

- Importing (`ImportConnection` promises never to downgrade what Toolmux owns). The stored
  credential is kept exactly as `Import.CredentialKeptExactly` says. For every connection there is
  an import without an OAuth client that replaces the credential of a client Toolmux registered
  itself (`Import.OwnTokenCanBeReplaced`), and one without a secret and with the method "none",
  the form `internal/importer/hermes.go:319-321` gives an OAuth server whose own tokens cannot be
  read, that deletes it, whatever the stored expiry (`Import.OwnTokenCanBeDeleted`). With an OAuth
  client of another redirect it is kept over any run (`Import.OwnClientKept`). That
  `Import.NewerTokenKeptExactly` also covers "none" with an expiry is for completeness: the
  importer sets an expiry only together with OAuth.
- "Its own slug" is derived from 24 bits of a digest. When that slug is also taken, the connection
  is attached to a connector of another endpoint (`Import.ForeignConnectorAttached`,
  `Import.ConnectorFitsExactly`).
- A listed tool that was disabled meanwhile is revoked, not granted, by a per-tool save
  (`AccessState.ListedButDisabled`, `AccessState.SaveExactly`).
- A failed save after a refresh leaves a spent refresh token in the store
  (`OAuthRefresh.FailedSaveKeepsSpentToken`, `OAuthRefresh.StoreUnspentExactly`); a stated lifetime
  of 10^10 seconds wraps to the past (`OAuthRefresh.HugeLifetimeIsStale`,
  `OAuthRefresh.RefreshedIsFreshExactly`).
- A cached gateway token is served past its lifetime, counted from the request start, when it was
  stored later than the skew: `TokenCache.ServesToken` builds the run and
  `TokenCache.OutlivesExactly` gives the condition, met by a lifetime of 100 s answered after 15 s.
- A manual model of 256 two-byte characters is accepted and listed, but stopped by the 337-byte
  gate (`Catalog.LongManualModelIsStopped`, `Catalog.GateExactly`).
- The last path element of a Workspace request is not the method when it repeats the service name
  (`Gws.MethodReplaced`, `Gws.MethodExactly`).
- The supervisor reads the wall clock; when it steps back, pruning has forgotten a restart that the
  cooldown should still see (`Supervisor.SteppingClockForgets`, `Supervisor.CooldownDiffersExactly`).
- A settings save that commits inside an observation can have a recovery announced alone
  (`Alerts.LoneRecoveryExactly`; `Alerts.OverlapExactly` says when the order matters at all).
- A per-tool save that commits inside an `EnsureCommandTool` of an existing tool can be undone by it:
  the unchecked tool is granted again (`AccessState.UncheckedToolReturns`,
  `AccessState.LateGrantExactly`). Over whole transactions a revocation holds
  (`AccessState.RevocationHolds`).

## Model

| member | source | states |
|---|---|---|
| `AccessState.WholeAccessAlways` | internal/store/agents.go:297-323 | After every sequence of transactions, committed or rolled back, keys and foreign keys hold and an agent assigned a whole connection holds a grant on each of its enabled tools. |
| `AccessState.TransactionKeepsInv` | internal/store/tools.go:41-78 | Each single transaction (assign, per-tool save, refresh, declaration, ensure, import, rename, pause, deletion) keeps that cross-table invariant. |
| `AccessState.SaveUnchecks` | internal/store/agents.go:338-347 | After a save that leaves a visible tool unchecked, the agent has neither the grant nor the assignment of that tool's connection. |
| `AccessState.RevocationHolds` | internal/store/agents.go:338-340 | An unchecked tool stays ungranted over any run without an assignment of its connection, an import for that agent or a save that checks it. |
| `AccessState.RegrantsExactly` | internal/store/connections.go:249-256 | From the unchecked state one committed transaction leaves the enabled tool granted if and only if it is one of those three acts. |
| `AccessState.LateEnsureExactly` | internal/store/tools.go:240-275 | An EnsureCommandTool that read the assignments before other transactions committed amounts to running after them if and only if each agent it read is still assigned or holds the tool. |
| `AccessState.LateWholeAccessExactly` | internal/store/tools.go:240-275 | It keeps whole access if and only if each agent assigned the connection by then was read or holds the tool. |
| `AccessState.LateGrantExactly` | internal/store/tools.go:266-275 | With a per-tool save in between, it grants an unchecked tool again if and only if the save took the tool from an agent that was assigned its connection. |
| `AccessState.UncheckedToolReturns` | internal/store/tools.go:266-275 | The failing case: it can happen to every command tool of a connection an agent is assigned. |
| `AccessState.SaveExactly` | internal/store/agents.go:326-359 | A save decides the agent's grants on exactly the visible tools (listed and enabled ones are granted) and leaves every other grant alone. |
| `AccessState.ListedButDisabled` | internal/store/agents.go:351-356 | A run from the empty tables ends with a disabled tool that was granted and, saved as listed, loses its grant. |
| `AccessState.GrantEndsExactly` | internal/store/tools.go:41-78 | An existing grant ends if and only if an operator takes it away or deletes its agent, tool or connection; no refresh, rename or import ends one. |
| `AccessState.GrantHasReason` | internal/store/tools.go:69-76 | A grant appears only on an enabled tool, for an agent then assigned its connection or because that tool was checked for it. |
| `AccessState.AssignmentEndsExactly` | internal/store/agents.go:313-345 | For every committed transaction, an assignment ends if and only if that pair is removed, its agent saves a visible tool of its connection unchecked, or its agent or connection is deleted. |
| `AccessState.AssignmentBeginsExactly` | internal/store/connections.go:249-256 | An assignment begins if and only if that pair is assigned, or an import for that agent goes into that connection. |
| `AccessState.ToolEndsExactly` | internal/store/tools.go:177-188 | A tool ends if and only if its connection is deleted, or it is deleted itself and is not a discovered one. |
| `AccessState.ToolRowKept` | internal/store/tools.go:41-78 | A tool keeps connection, upstream name and kind for ever; whether it is enabled is changed only by a refresh of its connection, as it is listed or not, and by ensuring it. |
| `AccessState.ToolAppears` | internal/store/tools.go:206-275 | A new tool is enabled, under a new identifier, in the connection named and of the kind that brought it. |
| `AccessState.RefreshedNames` | internal/store/tools.go:57-64 | After a refresh each listed tool has the exposed name last listed for it. |
| `AccessState.RefreshCommits` | internal/store/tools.go:44-78 | A refresh commits when no listed name belongs to another tool or to two listed ones. |
| `AccessState.CommitsExactly` | internal/store/agents.go:297-359 | For every state, each transaction other than a refresh and a rename commits if and only if what it needs exists, its kind fits and its names are free. |
| `AccessState.ConnectionAfter` | internal/store/connections.go:314-412 | A connection ends by its own deletion alone; only a pause, a rename or an import of its source changes it, and only what that is about. |
| `AccessState.ConnectionAppears` | internal/store/connections.go:149-262 | A connection begins if and only if it is created or an unknown source is imported; then as it was asked for and, when imported, not disabled. |
| `AccessState.ReconcileMeaning` | internal/store/tools.go:44-78 | A refresh enables exactly the listed names, keeps every tool's identity, leaves other connections alone, and adds exactly the grants of the assigned agents. |
| `AccessState.RenameAllKeepsRest` | internal/store/connections.go:314-366 | Renaming row by row changes exposed names only, of exactly the tools visited, and keeps them unique. |
| `AccessState.RenamedExactly` | internal/store/connections.go:314-366 | A rename commits if and only if the slug is free and no tool takes a name that another has at its turn; then exactly the visited tools of the connection have their new names, and none if the slug is the old one. |
| `AccessState.EnsureMeaning` | internal/store/tools.go:237-275 | Ensuring a command tool twice over refreshes the one tool of that name and keeps the invariant. |
| `AccessState.GrantSurvivesOutage` | internal/store/tools.go:41-43 | A tool missing from one refresh and back in the next is not callable in between and is then the same tool, still granted. |
| `AccessState.Store.SetAgentConnection` | internal/store/agents.go:299-323 | The statements leave the state of the assignment or removal, or the old state when a foreign key fails; the invariant is kept. |
| `AccessState.Store.SaveVisibleGrants` | internal/store/agents.go:329-359 | The three statements leave the state of the per-tool save, or roll back; the invariant is kept. |
| `AccessState.Store.UpsertTool` | internal/store/tools.go:59-64 | The upsert updates the tool of that upstream name or inserts a new one, and fails exactly when the exposed name belongs to another tool. |
| `AccessState.Store.ReconcileTools` | internal/store/tools.go:44-78 | The disable, upsert and grant loop leaves the state of the refresh, or rolls everything back on a name conflict. |
| `AccessState.Store.CreateDeclaredTool` | internal/store/tools.go:206-235 | A declared tool is inserted and granted to the assigned agents, or nothing changes. |
| `AccessState.Store.EnsureCommandTool` | internal/store/tools.go:240-275 | A command tool is inserted or updated and granted to the assigned agents, or nothing changes. |
| `AccessState.Store.RenameTools` | internal/store/connections.go:314-366 | The loop gives the row-by-row rename, or the old rows when a name is taken. |
| `AccessState.Store.ResolveGrantedTool` | internal/store/tools.go:111-131 | Finds a tool exactly when it is granted, enabled, of that exposed name and on a connection that is not disabled. |
| `Import.Store.ImportConnection` | internal/store/connections.go:149-262 | The conditional upserts leave the tables the import function describes, or the old tables on any error; the result names the connection and whether it is new. |
| `Import.Store.PutConnector` | internal/store/connections.go:267-281 | Chooses the requested slug or, when that describes another kind or endpoint, the derived one; only a name is overwritten. |
| `Import.Store.PutCredential` | internal/store/connections.go:198-223 | Keeps, deletes or replaces the credential by ownership, emptiness and expiry. |
| `Import.Store.PutOAuth` | internal/store/connections.go:225-239 | Rewrites the whole OAuth client, or only its endpoints and scopes when Toolmux owns it. |
| `Import.ConnectorsKept` | internal/store/connections.go:264-266 | No run of imports changes a connector's kind or endpoint. |
| `Import.ConnectorFitsExactly` | internal/store/connections.go:264-281 | The connection ends under a connector of the imported kind and endpoint if and only if the requested or the derived slug is free or already describes it. |
| `Import.ForeignConnectorAttached` | internal/store/connections.go:264-281 | The failing case: two imports into empty tables that take the requested and the derived slug for other endpoints make a third attach its connection to one of them. |
| `Import.OwnClientKept` | internal/store/connections.go:144-148 | Over any run, a stored client with Toolmux's own redirect keeps client id, redirect, token method and credential while the imports of its source carry another redirect. |
| `Import.CredentialKeptExactly` | internal/store/connections.go:184-223 | For every import of a known source the stored credential is unchanged if and only if Toolmux owns the client, or there is no secret and nothing to delete, or the stored token expires no earlier, or it is the imported one. |
| `Import.ClientKeptExactly` | internal/store/connections.go:184-239 | A stored client keeps id, redirect and token method if and only if the import has no client, one of another redirect, or the same. |
| `Import.CredentialExactly` | internal/store/connections.go:198-223 | What is not kept is deleted, for an empty credential with method "none", or replaced by exactly what is imported. |
| `Import.ClientExactly` | internal/store/connections.go:225-239 | The stored client takes each endpoint and the scopes from the import, and, unless Toolmux owns it, its id, redirect and token method too; without an imported client it stays. |
| `Import.RowsExactly` | internal/store/connections.go:156-197 | Connection and connector carry the imported names and authorization; a known source keeps its connection and slug, and every other source and connector stays. |
| `Import.AcceptedExactly` | internal/store/connections.go:149-183 | An import commits if and only if its values pass the checks, a new connection's slug is free, and no other connection of the chosen connector has that name. |
| `Import.NewerTokenKeptExactly` | internal/store/connections.go:207-217 | A stored token that expires no earlier stays if and only if the client is owned or the import is not an empty credential with method "none". |
| `Import.TokenNeverOlder` | internal/store/connections.go:144-148 | While the imports of a source carry timed access tokens, the stored expiry never goes down over any run. |
| `Import.OwnTokenCanBeReplaced` | internal/store/connections.go:184-223 | For every connection, whoever owns its client, an import that passes the table checks puts any secret without expiry in place of the stored credential and leaves the client. |
| `Import.OwnTokenCanBeDeleted` | internal/store/connections.go:201-206 | For every connection, whoever owns its client, an import without secret and with method "none" deletes the stored credential, whatever its expiry. |
| `Import.ImportTwice` | internal/store/connections.go:144-148 | Importing the same input again leaves exactly the state of the first import. |
| `Import.ImportKeepsValid` | internal/store/connections.go:149-262 | An import keeps unique slugs, names, sources and all foreign keys. |
| `Import.ImportTouchesOne` | internal/store/connections.go:149-262 | No other connection's row, credential, client or specification changes. |
| `TokenCache.KeyBytesInjective` | internal/gateway/auth.go:145-160 | The bytes hashed for the cache key determine options and secret. |
| `TokenCache.ReachableInv` | internal/gateway/auth.go:131-236 | Over every interleaving, gate ownership, entry keys, expiries and the cache bound stay consistent. |
| `TokenCache.SingleFlight` | internal/gateway/auth.go:131-236 | In every reachable state at most one thread is past the gate of an entry, also across a clear of the cache. |
| `TokenCache.NoExchangeWhileFresh` | internal/gateway/auth.go:131-236 | An exchange in flight started when its entry held no token still servable, and the entry stays so. |
| `TokenCache.CacheBounded` | internal/gateway/auth.go:131-236 | The cache never holds more than 256 entries. |
| `TokenCache.OwnCredentials` | internal/gateway/auth.go:131-236 | Each returned token was minted with the caller's own options and secret. |
| `TokenCache.ReturnedWasAnswered` | internal/gateway/auth.go:131-236 | Over every run, a returned token, cached or not, with its lifetime, is one the endpoint answered to a call with the caller's own options and secret. |
| `TokenCache.EvictedExactly` | internal/gateway/auth.go:161-175 | A cached key loses its entry if and only if a key that is not cached finds 256 in the cache. |
| `TokenCache.ServedInsideLifetime` | internal/gateway/auth.go:131-236 | A cached token is served before its storing time plus stated lifetime, and for lifetimes of 200 s or more before request start plus lifetime when stored within the timeout. |
| `TokenCache.ServesToken` | internal/gateway/auth.go:131-236 | For any lifetime and any delay before storing there is a run that serves the token from the cache at any time up to its expiry. |
| `TokenCache.OutlivesExactly` | internal/gateway/auth.go:131-236 | For every lifetime, some run serves a cached token after request start plus lifetime if and only if it was stored more than the slack (the skew, up to a day) after that start. |
| `OAuthRefresh.ReachableSerialized` | internal/oauth/oauth.go:177-216 | In every reachable state one thread per connection is past the mutex, and while it exchanges the store holds what it loaded. |
| `OAuthRefresh.StoredChangesOnlyBySave` | internal/oauth/oauth.go:177-216 | A stored credential changes only when the thread holding its mutex saves a successful refresh; a failed exchange changes nothing. |
| `OAuthRefresh.NeverSpentTwice` | internal/oauth/oauth.go:174-216 | With rotating tokens and successful saves, no two successful exchanges of a connection present the same refresh token, in any interleaving. |
| `OAuthRefresh.CredentialsHaveOrigin` | internal/oauth/oauth.go:177-216 | Over every interleaving, a stored credential was there at the start or has an access token that an exchange of that connection returned; a returned one too, unless it is fresh and was stored or passed in by that call; and an exchange starts only from the stored, stale credential. |
| `OAuthRefresh.AnswerIsStored` | internal/oauth/oauth.go:200-216 | After an answer and its save, the call returns and the store holds the answered access token, and the answered refresh token or the old one if there is none. |
| `OAuthRefresh.ResolveRefreshes` | internal/oauth/oauth.go:177-216 | From every state in which a stale credential's mutex is free there is a run that refreshes it and returns and stores the answer. |
| `OAuthRefresh.UnspentExactly` | internal/oauth/oauth.go:200-216 | After an exchange the credential to be stored is unspent if and only if the endpoint returned a new refresh token. |
| `OAuthRefresh.StoreUnspentExactly` | internal/oauth/oauth.go:200-216 | After an exchange and its save the refresh token in the store is unspent if and only if the endpoint returned a new one and the save worked. |
| `OAuthRefresh.FailedSaveKeepsSpentToken` | internal/oauth/oauth.go:200-216 | The failing case: a save that fails after any exchange leaves the stored credential as it was, with a refresh token already presented. |
| `OAuthRefresh.RefreshedIsFreshExactly` | internal/oauth/oauth.go:218-237 | A refreshed credential is fresh on return if and only if no lifetime was stated or its wrapped 64-bit duration exceeds a minute and the delay of the save. |
| `OAuthRefresh.HugeLifetimeIsStale` | internal/oauth/oauth.go:222-237 | A lifetime of 10^10 seconds wraps around and is stale at once. |
| `Rotation.ScanIsLeftmost` | internal/localconfig/rotation.go:28 | The scan takes each match leftmost and as long as allowed and leaves none in the gaps. |
| `Rotation.LeftmostIsScan` | internal/localconfig/rotation.go:28 | Only one list of matches has that property: the scan is determined. |
| `Rotation.MatchExactly` | internal/localconfig/rotation.go:28 | A match is the mark and 32 to 100 token bytes, and takes as many of them as there are. |
| `Rotation.IssuedMatches` | internal/store/agents.go:135-143 | Every issued token with no token byte after it is a match of its own. |
| `Rotation.ScanStable` | internal/localconfig/rotation.go:153-158 | A file changed only past the mark inside old-token matches, token bytes for token bytes, has matches at the same places and lengths. |
| `Rotation.RewriteExact` | internal/localconfig/rotation.go:153-158 | The rewrite changes bytes only inside old-token matches, keeps every match in place, leaves none reading the old token and as many reading the new one as read either before. |
| `Rotation.RewriteKeepsMatch` | internal/localconfig/rotation.go:153-158 | Each single match survives at its place, reading the new token where it read the old one. |
| `Rotation.RewriteUndone` | internal/localconfig/rotation.go:153-158 | Rewriting back restores the file when the new token was not in it. |
| `RotationProtocol.CountMatches` | internal/localconfig/rotation.go:81-94 | Fails exactly when a candidate cannot be checked; otherwise the count is the number of matches reading the accepted token. |
| `RotationProtocol.Inspect` | internal/localconfig/rotation.go:55-100 | Fails exactly on an irregular, unreadable or too large file or an uncheckable candidate; otherwise reports each listed file with a reference once, with its content, token and count. |
| `RotationProtocol.Disk.Apply` | internal/localconfig/rotation.go:130-164 | Succeeds exactly when every snapshot is current and every write works; a stale one leaves the disk alone, a failed write leaves exactly the files before it rewritten. |
| `RotationProtocol.ReachableInv` | internal/web/operations.go:137-200 | In every reachable state each reviewed file nobody else edited holds the old or the new text as far as the rotation has come, and both tokens are active until the revocation. |
| `RotationProtocol.ReferencesStayActive` | internal/web/operations.go:137-200 | In every reachable state, after a failure or crash anywhere, each place that named the old token names an active token. |
| `RotationProtocol.RevokedAfterAllWritten` | internal/web/operations.go:189-192 | The old token is inactive only after every reviewed file holds the new one at all its references and the old one at none. |
| `RotationProtocol.RevokedExactly` | internal/web/operations.go:173-192 | Over every run, the old token is inactive if and only if the rotation is complete; then exactly it is gone from the active tokens, and the new one, once issued, is active. |
| `RotationProtocol.RotationCompletes` | internal/web/operations.go:137-200 | From every current review and to every token that may be issued there is a rotation that completes. |
| `RotationProtocol.ForeignTextKept` | internal/localconfig/rotation.go:130-164 | A reviewed file that another program changed before its own check keeps that text over any run without another edit of it, and the old token is never revoked. |
| `RotationProtocol.StaleChangesNothing` | internal/web/operations.go:166-172 | A fingerprint that no longer matches changes no token and no file, whatever follows. |
| `Meter.FeedIsSummary` | internal/gateway/usage.go:73-99 | The state after any bytes is the fold of the line handler over the complete lines of at most 2^20 bytes, plus the bounded rest. |
| `Meter.ChunksDoNotMatter` | internal/gateway/usage.go:73-99 | However a stream is cut into writes the state depends on its bytes only, and at most 2^20 bytes are pending. |
| `Meter.FlagsExactly` | internal/gateway/usage.go:17-72 | Complete and Failed hold if and only if some kept line was terminal, or reported an error. |
| `Meter.CountsExactly` | internal/gateway/usage.go:50-72 | Input and Output are the last non-negative counts that the kept lines report, or none if they report none. |
| `Meter.FlagsStay` | internal/gateway/usage.go:17-99 | More input never resets Failed or Complete. |
| `Meter.FlagsOfStream` | internal/gateway/usage.go:73-99 | Over the whole stream the two flags say exactly whether an end, or an error, was seen. |
| `Meter.LineFlags` | internal/gateway/usage.go:17-72 | A line sets Complete exactly when its data is the done mark or a message of an ending kind, and Failed exactly when it is a message of a failed kind, with a failed status or with an error. |
| `Meter.Usage.Observe` | internal/gateway/usage.go:17-72 | One JSON payload updates flags and counts as specified, ignoring negative counts and unparsable parts. |
| `Meter.Usage.Write` | internal/gateway/usage.go:73-99 | The byte loop with its pending and skipping fields computes the byte-by-byte fold. |
| `Meter.Pump` | internal/gateway/handler.go:181-206 | The loop forwards every byte in order and meters them; it stops early exactly when the client refuses a part. |
| `Meter.Forward` | internal/gateway/handler.go:181-236 | Of the four verdicts each is recorded exactly in its case: allowed if and only if the body ended cleanly, the client took everything, an end was seen and no error was. |
| `EventStream.DecodeResponse` | internal/mcp/client.go:317-362 | The scanner loop computes the decoding function, error cases included. |
| `EventStream.ScanPrinted` | internal/mcp/client.go:325-330 | Scanning printed lines gives them back, with or without the last newline. |
| `EventStream.DecodeInvertsPrint` | internal/mcp/client.go:315-362 | For any events printed as data lines, with or without the space after the colon, and any other fields among them, decoding returns exactly the first payload with the wanted id, and an error if there is none. |
| `EventStream.DecodeFindsFirst` | internal/mcp/client.go:315-362 | Said by the events alone: decoding fails if and only if no event's joined data lines decode to a response with the wanted id, and otherwise returns that of the first event whose do. |
| `EventStream.DecodeCRLF` | internal/mcp/client.go:325-362 | The same events printed with a carriage return before every newline decode to the same. |
| `EventStream.DecodeReadsCap` | internal/mcp/client.go:325-330 | Nothing past the first 32 MiB changes the result, and a first line that fills them is an error. |
| `EventStream.PayloadRoundTrip` | internal/mcp/client.go:317-362 | A payload printed as one data line per line of it is put together again unchanged. |
| `Base64.RawRoundTrip` | internal/mcp/handler.go:361-377 | Unpadded encoding is undone by its decoder for all bytes and both alphabets. |
| `Base64.PaddedRoundTrip` | internal/mcp/client.go:299-304 | Padded encoding is undone by its decoder for all bytes. |
| `Base64.EncodedShape` | internal/mcp/client.go:299-304 | An encoding is printable ASCII and no shorter than its input. |
| `Headers.HeaderRoundTrip` | internal/mcp/client.go:299-313 | Every value comes back from its header, also one that already looks encoded. |
| `Headers.HeaderInjective` | internal/mcp/client.go:299-304 | Different values give different headers. |
| `Headers.HeaderPrintable` | internal/mcp/client.go:299-313 | Every header is tab and printable ASCII with no blank at its ends. |
| `Headers.DirectComparisonExactly` | internal/mcp/handler.go:188-193 | Comparing the header with the value itself agrees if and only if the value passes unencoded. |
| `Headers.ExposedNameShape` | internal/store/store.go:279-301 | Every exposed name of a valid slug is at most 128 letters, digits, '_' and '-'. |
| `Headers.ExposedNameTravels` | internal/store/store.go:293-301 | So every exposed name travels unencoded and the server's direct comparison holds. |
| `Headers.ExposedDistinct` | internal/store/store.go:293-301 | Full names of at most 128 bytes are exposed as they are; longer ones keep 119 bytes and end in their digest, so different digests give different names. |
| `Paging.CursorRoundTrip` | internal/mcp/handler.go:361-377 | A cursor decodes to the offset it was made from, and is never empty. |
| `Paging.PageAtOffset` | internal/mcp/handler.go:236-270 | Every offset up to the catalog's end gives the next 200 tools and a cursor exactly if more remain; one past the end is refused. |
| `Paging.HugeCursor` | internal/mcp/handler.go:364-377 | A cursor that spells a number beyond 64 bits is refused. |
| `Paging.NegativeCursor` | internal/mcp/handler.go:364-377 | A cursor that spells a negative number is refused. |
| `Paging.ListTools` | internal/mcp/handler.go:229-275 | The loop returns the page of the cursor, or the invalid-cursor error. |
| `Paging.PageOf` | internal/mcp/handler.go:229-275 | Page k holds the k-th stretch of the catalog and leads to page k+1, or to none when it is the last. |
| `Paging.FollowAll` | internal/mcp/handler.go:229-275 | Following nextCursor from the empty cursor terminates and lists every tool exactly once in order. |
| `Paging.Discover` | internal/mcp/client.go:75-107 | The client loop returns the whole catalog if and only if it needs at most 100 pages, and an error otherwise. |
| `Alerts.Operations.Observe` | internal/store/operations.go:89-136 | The statements give the next row, log and queue of the transducer. |
| `Alerts.Operations.SaveOperationSettings` | internal/store/operations.go:35-69 | Saving settings updates the webhook, forgets outstanding alerts and deletes the queued messages. |
| `Alerts.AlertsAreSeparated` | internal/store/operations.go:87-136 | Between two alerts of a resource it was seen connected or disabled, or settings were saved; transient statuses never cause a repeat. |
| `Alerts.RecoveryAnswersAlert` | internal/store/operations.go:87-136 | Over histories of whole calls, the last message queued for a resource before each recovery is an alert that nothing settled since. |
| `Alerts.AlertOutstanding` | internal/store/operations.go:87-136 | Over histories of whole calls, when the webhook is ready, a resource seen to need authorization has an alert queued that nothing settled since. |
| `Alerts.OverlapExactly` | internal/store/operations.go:89-136 | A settings save between the SELECT and the writes of an observation amounts to saving first if and only if no alert was outstanding, or the status is disabled, or connected with the webhook off. |
| `Alerts.LoneRecoveryExactly` | internal/store/operations.go:89-136 | For every status, such an overlap has a recovery announced alone, at once or at the next connected observation, if and only if an alert was outstanding, the status is not disabled and the webhook is ready after the save. |
| `Alerts.LogIsDeduped` | internal/store/operations.go:89-136 | The events logged for a resource are its observed statuses with consecutive repeats removed. |
| `Alerts.WaitingSinceSave` | internal/store/operations.go:58-67 | After any history the queue holds exactly the messages queued since the settings were last saved. |
| `Alerts.AlertedExactly` | internal/store/operations.go:89-136 | After any history, the alert flag of a resource is set if and only if, by the history alone, an alert is outstanding. |
| `Alerts.QueuedExactly` | internal/store/operations.go:89-136 | An observation queues an alert if and only if authorization is needed and none is outstanding, a recovery if and only if it is connected and one is, each only with the webhook on and its endpoint known, and nothing else. |
| `Deliveries.ReachableInv` | internal/store/operations.go:169-182 | Over every interleaving of prompt or crashing workers, rows, holds and recorded failures agree. |
| `Deliveries.ExclusiveHold` | internal/store/operations.go:169-174 | No delivery is held by two workers at once. |
| `Deliveries.AttemptsAreFailures` | internal/store/operations.go:175-182 | A queued delivery's attempts are its recorded failures, at most two; a success or a third failure removes it for good. |
| `Deliveries.QueuedExactly` | internal/store/operations.go:175-182 | Over every interleaving, a delivery is in the queue if and only if it was queued and is not delivered, not purged and has failed fewer than three times. |
| `Deliveries.RetryDueExactly` | internal/store/operations.go:175-182 | After a failure it is due at a time if and only if it failed fewer than three times and five minutes have passed since the first failure, or ten since the second. |
| `Deliveries.RetriesWait` | internal/store/operations.go:175-182 | A retry comes at least five minutes after the first failure and ten after the second. |
| `Deliveries.DoubleHoldExactly` | internal/store/operations.go:169-174 | A held delivery can be leased again if and only if it is still queued and the holder kept it for the whole 60 s. |
| `Deliveries.Queue.NextDelivery` | internal/store/operations.go:169-174 | Leases the due delivery with the smallest identifier for 60 s; returns none exactly when none is due. |
| `Deliveries.Queue.FinishDelivery` | internal/store/operations.go:175-182 | A success or the third failure deletes the row; another failure adds one attempt and puts the next 5 minutes off per attempt made. |
| `Administrators.ReachableInv` | internal/store/admin.go:41-71 | Over every interleaving under the advisory lock, what a transaction has checked still holds when it commits. |
| `Administrators.AlwaysAnAdministrator` | internal/store/admin.go:200-228 | Once anything was committed, every committed state has an enabled administrator. |
| `Administrators.SetupAtMostOnce` | internal/store/admin.go:41-71 | First-run setup is exactly the first committed change, so it commits at most once. |
| `Administrators.ChangesAreAuthorized` | internal/store/admin.go:165-228 | Every change of the committed users, at any step of any run, is one request of an enabled administrator of the state just before, or first-run setup, and leaves an administrator. |
| `Administrators.ChangeExactly` | internal/store/admin.go:178-228 | A request adds the user it names, enabled and with the role it gives, or sets role and state of its target, and leaves every other user alone. |
| `Administrators.AdminsAreMade` | internal/store/admin.go:41-228 | In any run, a user becomes an enabled administrator only by a request that says so for that very user. |
| `Administrators.CommitsAlone` | internal/store/admin.go:41-228 | From every state with the lock free, a request that is authorized, breaks no constraint and leaves an administrator has a run that commits it and frees the lock. |
| `Administrators.LogReplays` | internal/store/admin.go:41-228 | The committed users are what a serial execution of the committed requests gives, in commit order, each allowed where it is carried out. |
| `Administrators.OneInside` | internal/store/admin.go:165-176 | At most one transaction is past the lock. |
| `LoginLimit.Limiter.AllowLogin` | internal/store/admin.go:233-244 | One attempt starts a window or counts in the current one, is admitted while the count is at most 10, and rows an hour past their window are swept. |
| `LoginLimit.CleanupChangesNoAnswer` | internal/store/admin.go:233-244 | No answer differs from what it would be without the cleanup. |
| `LoginLimit.AdmissionBounds` | internal/store/admin.go:233-244 | At most 10 attempts are admitted per fixed window, and at most 20 per address in any 15-minute interval. |
| `LoginAdmission.AdmittedExactly` | internal/store/admin.go:233-244 | Over any history, a call is admitted if and only if fewer than ten of its address came before it in its window. |
| `LoginAdmission.FewAreAdmitted` | internal/store/admin.go:233-244 | Nobody with fewer than ten attempts in the last 15 minutes is turned away. |
| `LoginAdmission.SweptExactly` | internal/store/admin.go:233-244 | After each call exactly the rows whose window ended more than an hour before it are gone. |
| `Catalog.Provider.SaveManual` | internal/store/models.go:141-153 | The loop enters every non-blank model as manual and enabled, or rolls back on the first one refused. |
| `Catalog.Provider.SaveDiscovered` | internal/store/models.go:205-239 | A failed discovery changes nothing; a successful one enables the valid list and disables the other discovered models. |
| `Catalog.EnterAllMeaning` | internal/store/models.go:141-153 | A save commits if and only if every entry is blank or valid, and then exactly the entered models become manual and enabled. |
| `Catalog.OfferedExactly` | internal/store/models.go:205-239 | After any run of saves and discoveries the enabled models are exactly those ever entered manually plus the last successful discovery's valid ones. |
| `Catalog.ResolveModel` | internal/store/models.go:260-280 | Accepts exactly the ids of enabled models of enabled providers, also when the model holds slashes, and returns the pair the id was made of. |
| `Catalog.IdSplits` | internal/store/models.go:260-264 | Cutting at the first slash undoes joining slug and model. |
| `Catalog.GateExactly` | internal/gateway/handler.go:96 | A listed id passes the gate if and only if slug and model fit 336 bytes, which they do for models of at most 256 bytes. |
| `Catalog.LongManualModelIsStopped` | internal/gateway/handler.go:96 | For every slug there is an accepted, listed manual model that the gate stops. |
| `Supervisor.Fleet.RestartProfile` | deploy/hermes-fleet-supervisor.py:54-88 | Prunes, judges and records one restart of one profile and touches no other. |
| `Supervisor.Fleet.Check` | deploy/hermes-fleet-supervisor.py:95-114 | One pass over one profile: failures are reset, kept or counted, and a restart is asked for, as the observation function says; no other profile changes. |
| `Supervisor.Fleet.Round` | deploy/hermes-fleet-supervisor.py:91-114 | One round looks at every profile once, and no profile's past touches another's. |
| `Supervisor.PrunedAnswersAsFull` | deploy/hermes-fleet-supervisor.py:54-64 | With a clock that never steps back, the pruned deque is exactly what the window holds of the full history and gives the same verdict. |
| `Supervisor.RestartsAreRare` | deploy/hermes-fleet-supervisor.py:54-64 | Recorded restarts are at least 300 s apart and any closed 600 s window holds at most 3. |
| `Supervisor.NeverSuppressed` | deploy/hermes-fleet-supervisor.py:54-61 | Under any clock the deque holds at most 3 restarts, so the limit of 5 is never reached in any run. |
| `Supervisor.CooldownDiffersExactly` | deploy/hermes-fleet-supervisor.py:57-64 | In every run under any clock, deque and full history disagree on the cooldown if and only if a look asked for a restart more than 600 s after the last one and this look comes less than 300 s after it. |
| `Supervisor.VerdictDiffersExactly` | deploy/hermes-fleet-supervisor.py:54-64 | Their verdicts differ if and only if that is so or the full history holds five restarts in the window. |
| `Supervisor.SteppingClockForgets` | deploy/hermes-fleet-supervisor.py:55-64 | The failing case: every run with a restart in it can be continued, with a clock that jumps ahead and back, to a second restart one second after it. |
| `Supervisor.CountedIsStanding` | deploy/hermes-fleet-supervisor.py:94-112 | A failure is counted if and only if a failing result stands with no healthy result, disabled service or restart since. |
| `Supervisor.TwoFailuresExactly` | deploy/hermes-fleet-supervisor.py:110-114 | A health-triggered restart is asked for if and only if this result fails and an earlier failing one still stands. |
| `Supervisor.GraceRespected` | deploy/hermes-fleet-supervisor.py:82-85 | After a restart no failing result is taken for 120 s. |
| `Supervisor.GraceExactly` | deploy/hermes-fleet-supervisor.py:82-85 | In every run the grace ends 120 s after the last recorded restart. |
| `Supervisor.RestartsExactly` | deploy/hermes-fleet-supervisor.py:54-88 | Under any clock a restart is made if and only if it is asked for, systemd is not at it, the command works, and no restart in the deque is less than 300 s old. |
| `Supervisor.RestartsOnTime` | deploy/hermes-fleet-supervisor.py:54-88 | With a clock that never steps back, such a restart is made if and only if the last one is at least 300 s ago. |
| `GwsPath.FieldsCut` | cmd/toolmux/gws_normalize.go:24-32 | A separator cuts: both sides are split on their own. |
| `GwsPath.FieldsOfJoin` | cmd/toolmux/gws_normalize.go:24-32 | Splitting undoes joining tokens with any separator. |
| `GwsPath.ThreeSeparators` | cmd/toolmux/gws_normalize.go:24-32 | A dot, a slash and a space each separate, and without one of them a field is one token. |
| `GwsPath.SplitPath` | cmd/toolmux/gws_normalize.go:24-32 | The scan over the characters returns exactly the non-empty words between separators. |
| `GwsWords.WithoutHead` | cmd/toolmux/gws_normalize.go:72-78 | Dropping the service keeps every other word, in order. |
| `GwsWords.Resolve` | cmd/toolmux/gws_normalize.go:54-84 | Finds the service, drops its repetitions, supplies "users" and refuses short paths. |
| `GwsWords.ServiceChoice` | cmd/toolmux/gws_normalize.go:54-71 | The service is the known word that opens its field, else the first known word of all, else a service field of one word. |
| `GwsWords.CanonicalLast` | cmd/toolmux/gws_normalize.go:41-42 | The last word stays last if and only if it is not the service. |
| `Gws.Request.Normalize` | cmd/toolmux/gws_normalize.go:43-97 | The fields then hold the normal form, or are unchanged with the error. |
| `Gws.WordsKept` | cmd/toolmux/gws_normalize.go:34-42 | The words of the result are the service and the request's tokens in order, without the service's occurrences, and with "users" put in if and only if the service is Gmail and a user resource comes first. |
| `Gws.Idempotent` | cmd/toolmux/gws_normalize.go:34-42 | Normalizing an accepted result again changes nothing. |
| `Gws.SameExactly` | cmd/toolmux/gws_normalize.go:34-42 | Two accepted requests normalize alike if and only if service and remaining tokens agree once "users" is supplied, however they were split over fields. |
| `Gws.OneFieldSpelling` | cmd/toolmux/gws_normalize.go:34-42 | Written in the method field alone, with any separator, the request has the same normal form if and only if its service is a known one. |
| `Gws.MethodExactly` | cmd/toolmux/gws_normalize.go:41-42 | The method is the last path element if and only if the request's service does not resolve to that element. |
| `Gws.MethodReplaced` | cmd/toolmux/gws_normalize.go:72-78 | For every known service but gmail there are requests whose method is replaced by the word before it. |
| `Gws.RefusedExactly` | cmd/toolmux/gws_normalize.go:64-84 | A request is refused if and only if no service can be found or fewer than two other words remain. |
| `GwsTables.GoogleFits` | cmd/toolmux/gws_normalize.go:10-22 | The built-in tables meet what those results ask of a table. |

## Left out

- AccessState.WholeAccessAlways: each transaction is one step. Assignment, per-tool save and refresh lock the connection's row, and inserting a tool or importing waits for that lock. Updating an existing command tool does not, and a tool creation and an import do not exclude each other: a grant statement that has missed an assignment committed meanwhile is the subject of `LateWholeAccessExactly`, stated for EnsureCommandTool; CreateHTTPTool and CreateCommandTool grant in the same way.
- AccessState.RevocationHolds: runs of whole transactions; `LateGrantExactly` says when a command tool being ensured at the same time breaks it.
- AccessState.Store.ReconcileTools: the exposed names come with the list, as computed from the slug the caller read; a rename running at the same time is not modelled. Titles, schemas and hashes of tools are not modelled.
- AccessState.RenameAllKeepsRest: only the slug and the renamed tools of UpdateConnection are modelled, not its other columns.
- Import.Store.ImportConnection: the CHECK constraints are one predicate over the input, and sealing a credential is the identity. The assignment and grants for an agent are in `AccessState.dfy`, where an import is one of the transactions.
- TokenCache.OwnCredentials: the SHA-256 digest of the key bytes is taken as injective, and the marshalled options hold no zero byte.
- OAuthRefresh.NeverSpentTwice: no other code writes the credential while a refresh runs; Complete and SaveOAuthClient are not part of this model.
- RotationProtocol.Disk.Apply: no other program writes between the checks. The protocol does allow edits at any point, but an edit between a file's own check and its replacement is overwritten, by the code as by the model.
- RotationProtocol.Inspect: paths are absolute already, the final sorting by path is not modelled, and the token check accepts one value only (it compares digests).
- RotationProtocol.RevokedAfterAllWritten: rotation with a local update. Rotation without one issues and revokes and touches no file. Nobody else issues or revokes the agent's tokens meanwhile.
- Meter.Forward: an upstream body that never ends and the non-streamed branch of infer are not modelled.
- Meter.Usage.Observe: JSON and TrimSpace are parameters.
- EventStream.DecodeInvertsPrint: a field does not itself end in a carriage return, which the scanner would drop, and the body stays below the 32 MiB cap. The plain JSON branch of decodeResponse is not modelled.
- Paging.FollowAll: the catalog has at most 2^63 - 1 tools, as a Go slice does, and does not change between pages.
- Headers.ExposedNameTravels: Slug is not modelled; slugs are those the schema accepts.
- Alerts.RecoveryAnswersAlert: a settings save happens before or after an Observe, not between its SELECT and its writes; `OverlapExactly` says when that makes a difference.
- Alerts.AlertOutstanding: the same.
- Alerts.AlertsAreSeparated: saved settings count as settling, since saving resets the alert flags. Deleting the state of removed resources is not modelled.
- Deliveries.ExclusiveHold: workers finish or crash within 60 s of leasing; without that `DoubleHoldExactly` says when it fails.
- Deliveries.Queue.NextDelivery: rows locked by another statement are skipped in the database; the method has no concurrent statement, the protocol lets a worker be given any due row.
- Administrators.AlwaysAnAdministrator: passwords and sessions are not modelled; user names are checked only for uniqueness.
- LoginLimit.AdmissionBounds: the application and the database read one clock that never goes back.
- Catalog.OfferedExactly: no model is switched on or off by hand, and providers are never deleted.
- Catalog.ResolveModel: the order of the list and the credentials of the provider are not modelled.
- Supervisor.Fleet.Check: health, systemd and the restart command are inputs of the step; times are real numbers.
- Supervisor.PrunedAnswersAsFull: needs a clock that never steps back; for any clock see `CooldownDiffersExactly` and `VerdictDiffersExactly`.
- Gws.Request.Normalize: the other fields of a request and the later syntax checks are not modelled.
- SQL, transactions beyond one committed step or one lock, AES-GCM, bcrypt and token generation.
- HTTP servers and clients, subprocesses, templates, the web pages, configuration loading, the updater and the Hermes importer.
- Provider validation and request headers of the inference gateway, DoWithRetry and argument templates: case analysis of one call each.
