/** Tables `agents`, `connections`, `tools`, `grants` and `agent_connections`, and the
    transactions that change them (internal/store/agents.go, tools.go, connections.go).

    A `Db` value is one committed state.  `Apply` gives the committed state a transaction
    leaves behind, or None when a constraint or a check makes it roll back. */
module AccessState {
  import opened Prelude

  type AgentId = nat
  type ConnectionId = nat
  type ToolId = nat

  datatype ToolKind = McpTool | HttpTool | CommandTool
  datatype ConnectionKind = McpHttp | McpStdio | HttpApi | Command

  datatype Connection = Connection(slug: string, kind: ConnectionKind, source: Option<string>, disabled: bool)
  datatype Tool = Tool(connection: ConnectionId, kind: ToolKind, upstream: string, exposed: string, enabled: bool)
  datatype Grant = Grant(agent: AgentId, tool: ToolId)
  datatype Assignment = Assignment(agent: AgentId, connection: ConnectionId)

  /** One entry of a discovered catalog, with the exposed name already computed. */
  datatype Listed = Listed(upstream: string, exposed: string)

  /** Row identifiers are UUIDs that are never reused: the counters stand for them. */
  datatype Db = Db(
    agents: set<AgentId>,
    connections: map<ConnectionId, Connection>,
    tools: map<ToolId, Tool>,
    grants: set<Grant>,
    assignments: set<Assignment>,
    nextAgent: nat,
    nextConnection: nat,
    nextTool: nat)

  const EMPTY := Db({}, map[], map[], {}, {}, 0, 0, 0)

  /** Keys, unique constraints and foreign keys of the schema. */
  ghost predicate Keyed(tools: map<ToolId, Tool>) {
    && (forall t, u | t in tools && u in tools && t != u :: tools[t].exposed != tools[u].exposed)
    && (forall t, u | t in tools && u in tools && t != u && tools[t].connection == tools[u].connection ::
          tools[t].upstream != tools[u].upstream)
  }

  ghost predicate Sound(db: Db) {
    && Keyed(db.tools)
    && (forall a | a in db.agents :: a < db.nextAgent)
    && (forall c | c in db.connections :: c < db.nextConnection)
    && (forall t | t in db.tools :: t < db.nextTool && db.tools[t].connection in db.connections)
    && (forall g | g in db.grants :: g.agent in db.agents && g.tool in db.tools)
    && (forall p | p in db.assignments :: p.agent in db.agents && p.connection in db.connections)
    && (forall c, d | c in db.connections && d in db.connections && c != d && db.connections[c].source.Some? ::
          db.connections[c].source != db.connections[d].source)
  }

  /** An agent assigned a whole connection holds every enabled tool of it. */
  ghost predicate WholeAccess(db: Db) {
    forall p, t | p in db.assignments && t in db.tools && db.tools[t].connection == p.connection
      && db.tools[t].enabled ::
      Grant(p.agent, t) in db.grants
  }

  ghost predicate Inv(db: Db) {
    Sound(db) && WholeAccess(db)
  }

  // ---- Statements -------------------------------------------------------------------

  /** INSERT INTO grants: every agent assigned `c` gets every enabled tool of `c`. */
  function WholeGrants(db: Db, c: ConnectionId): (r: set<Grant>) {
    set p, t | p in db.assignments && p.connection == c && t in db.tools && db.tools[t].connection == c
      && db.tools[t].enabled ::
      Grant(p.agent, t)
  }

  function ToolsOf(tools: map<ToolId, Tool>, c: ConnectionId): (r: set<ToolId>) {
    set t | t in tools && tools[t].connection == c
  }

  function DisableAll(tools: map<ToolId, Tool>, c: ConnectionId): map<ToolId, Tool> {
    map t | t in tools :: if tools[t].connection == c then tools[t].(enabled := false) else tools[t]
  }

  predicate Taken(tools: map<ToolId, Tool>, exposed: string) {
    exists t | t in tools :: tools[t].exposed == exposed
  }

  predicate TakenByOther(tools: map<ToolId, Tool>, exposed: string, own: ToolId) {
    exists t | t in tools :: t != own && tools[t].exposed == exposed
  }

  predicate IsNamed(tools: map<ToolId, Tool>, c: ConnectionId, upstream: string, t: ToolId) {
    t in tools && tools[t].connection == c && tools[t].upstream == upstream
  }

  ghost predicate HasNamed(tools: map<ToolId, Tool>, c: ConnectionId, upstream: string) {
    exists t :: IsNamed(tools, c, upstream, t)
  }

  ghost function Named(tools: map<ToolId, Tool>, c: ConnectionId, upstream: string): (t: ToolId)
    requires HasNamed(tools, c, upstream)
    ensures IsNamed(tools, c, upstream, t)
  {
    var t :| IsNamed(tools, c, upstream, t); t
  }

  /** The table `tools` with the next free identifier. */
  datatype Tables = Tables(tools: map<ToolId, Tool>, next: nat)

  /** INSERT INTO tools ... ON CONFLICT (connection_id, upstream_name) DO UPDATE. */
  ghost function Upsert(tools: map<ToolId, Tool>, next: nat, c: ConnectionId, kind: ToolKind,
                        item: Listed): Option<Tables> {
    if HasNamed(tools, c, item.upstream) then
      var t := Named(tools, c, item.upstream);
      if TakenByOther(tools, item.exposed, t) then None
      else Some(Tables(tools[t := tools[t].(exposed := item.exposed, enabled := true)], next))
    else if Taken(tools, item.exposed) then None
    else Some(Tables(tools[next := Tool(c, kind, item.upstream, item.exposed, true)], next + 1))
  }

  ghost function UpsertAll(tools: map<ToolId, Tool>, next: nat, c: ConnectionId, items: seq<Listed>): Option<Tables>
    decreases |items|
  {
    if items == [] then Some(Tables(tools, next))
    else
      match UpsertAll(tools, next, c, items[..|items| - 1])
      case None => None
      case Some(p) => Upsert(p.tools, p.next, c, McpTool, items[|items| - 1])
  }

  /** UPDATE tools SET exposed_name row by row, in the order the loop visits them. */
  predicate RenameBlocked(tools: map<ToolId, Tool>, names: map<ToolId, string>, t: ToolId) {
    t in tools && t in names && TakenByOther(tools, names[t], t)
  }

  function RenameOne(tools: map<ToolId, Tool>, names: map<ToolId, string>, t: ToolId): map<ToolId, Tool> {
    if t in tools && t in names then tools[t := tools[t].(exposed := names[t])] else tools
  }

  ghost function RenameAll(tools: map<ToolId, Tool>, names: map<ToolId, string>,
                           order: seq<ToolId>): Option<map<ToolId, Tool>>
    decreases |order|
  {
    if order == [] then Some(tools)
    else
      match RenameAll(tools, names, order[..|order| - 1])
      case None => None
      case Some(done) =>
        var t := order[|order| - 1];
        if RenameBlocked(done, names, t) then None else Some(RenameOne(done, names, t))
  }

  ghost predicate HasSource(db: Db, source: string) {
    exists c | c in db.connections :: db.connections[c].source == Some(source)
  }

  ghost function BySource(db: Db, source: string): (c: ConnectionId)
    requires HasSource(db, source)
    ensures c in db.connections && db.connections[c].source == Some(source)
  {
    var c :| c in db.connections && db.connections[c].source == Some(source); c
  }

  /** The connection an import of `source` writes to. */
  ghost function ImportTarget(db: Db, source: string): ConnectionId {
    if HasSource(db, source) then BySource(db, source) else db.nextConnection
  }

  // ---- Transactions -----------------------------------------------------------------

  ghost function Assign(db: Db, a: AgentId, c: ConnectionId): Option<Db> {
    if a !in db.agents || c !in db.connections then None
    else
      Some(db.(assignments := db.assignments + {Assignment(a, c)},
               grants := db.grants + set t | t in db.tools && db.tools[t].connection == c && db.tools[t].enabled ::
                 Grant(a, t)))
  }

  ghost function Unassign(db: Db, a: AgentId, c: ConnectionId): Option<Db> {
    Some(db.(assignments := db.assignments - {Assignment(a, c)},
             grants := (set g | g in db.grants
               && !(g.agent == a && g.tool in db.tools && db.tools[g.tool].connection == c))))
  }

  /** Connections with a visible tool left unchecked: they fall back to individual access. */
  function Individual(tools: map<ToolId, Tool>, visible: seq<ToolId>, granted: seq<ToolId>): set<ConnectionId> {
    set t | t in visible && t in tools && t !in granted :: tools[t].connection
  }

  ghost function SetVisibleGrants(db: Db, a: AgentId, visible: seq<ToolId>, granted: seq<ToolId>): Option<Db> {
    if visible == [] then Some(db)
    else
      var individual := Individual(db.tools, visible, granted);
      var kept := set p | p in db.assignments && !(p.agent == a && p.connection in individual);
      var cleared := set g | g in db.grants && !(g.agent == a && g.tool in visible);
      var checked := set t | t in db.tools && db.tools[t].enabled && t in visible && t in granted :: Grant(a, t);
      if checked != {} && a !in db.agents then None
      else Some(db.(assignments := kept, grants := cleared + checked))
  }

  ghost function Reconcile(db: Db, c: ConnectionId, items: seq<Listed>): Option<Db> {
    if c !in db.connections then if items == [] then Some(db) else None
    else
      match UpsertAll(DisableAll(db.tools, c), db.nextTool, c, items)
      case None => None
      case Some(p) =>
        var written := db.(tools := p.tools, nextTool := p.next);
        Some(written.(grants := written.grants + WholeGrants(written, c)))
  }

  predicate KindsMatch(kind: ToolKind, of: ConnectionKind) {
    (kind == HttpTool ==> of == HttpApi) && (kind == CommandTool ==> of == Command)
  }

  function GrantNew(db: Db, c: ConnectionId, t: ToolId): Db {
    db.(grants := db.grants + set p | p in db.assignments && p.connection == c :: Grant(p.agent, t))
  }

  ghost function Declare(db: Db, c: ConnectionId, kind: ToolKind, item: Listed): Option<Db> {
    if c !in db.connections || !KindsMatch(kind, db.connections[c].kind) then None
    else if HasNamed(db.tools, c, item.upstream) || Taken(db.tools, item.exposed) then None
    else
      var written := db.(tools := db.tools[db.nextTool := Tool(c, kind, item.upstream, item.exposed, true)],
        nextTool := db.nextTool + 1);
      Some(GrantNew(written, c, db.nextTool))
  }

  ghost function Ensure(db: Db, c: ConnectionId, item: Listed): Option<Db> {
    if c !in db.connections || db.connections[c].kind != Command then None
    else
      match Upsert(db.tools, db.nextTool, c, CommandTool, item)
      case None => None
      case Some(p) =>
        var t := if HasNamed(db.tools, c, item.upstream) then Named(db.tools, c, item.upstream) else db.nextTool;
        Some(GrantNew(db.(tools := p.tools, nextTool := p.next), c, t))
  }

  ghost function Forget(db: Db, gone: set<ToolId>): Db {
    db.(tools := db.tools - gone, grants := set g | g in db.grants && g.tool !in gone)
  }

  ghost function DeleteTool(db: Db, t: ToolId): Option<Db> {
    if t !in db.tools || db.tools[t].kind == McpTool then None else Some(Forget(db, {t}))
  }

  ghost function Rename(db: Db, c: ConnectionId, slug: string, names: map<ToolId, string>,
                        order: seq<ToolId>): Option<Db> {
    if c !in db.connections then None
    else if exists d | d in db.connections :: d != c && db.connections[d].slug == slug then None
    else
      var renamed := db.(connections := db.connections[c := db.connections[c].(slug := slug)]);
      if slug == db.connections[c].slug then Some(renamed)
      else
        match RenameAll(db.tools, map t | t in names && t in db.tools && db.tools[t].connection == c :: names[t], order)
        case None => None
        case Some(tools) => Some(renamed.(tools := tools))
  }

  ghost function DeleteConnection(db: Db, c: ConnectionId): Option<Db> {
    if c !in db.connections then None
    else
      Some(Forget(db, ToolsOf(db.tools, c)).(connections := db.connections - {c},
                                             assignments := (set p | p in db.assignments && p.connection != c)))
  }

  ghost function CreateConnection(db: Db, connection: Connection): Option<Db> {
    if connection.source.Some? || exists d | d in db.connections :: db.connections[d].slug == connection.slug then None
    else Some(db.(connections := db.connections[db.nextConnection := connection],
      nextConnection := db.nextConnection + 1))
  }

  /** The part of ImportConnection that touches these tables. */
  ghost function Import(db: Db, source: string, slug: string, kind: ConnectionKind,
                        agent: Option<AgentId>): Option<Db> {
    var c := ImportTarget(db, source);
    var written :=
      if HasSource(db, source) then
        Some(db.(connections := db.connections[c := db.connections[c].(kind := kind)]))
      else if exists d | d in db.connections :: db.connections[d].slug == slug then None
      else Some(db.(connections := db.connections[c := Connection(slug, kind, Some(source), false)],
        nextConnection := c + 1));
    match (written, agent)
    case (None, _) => None
    case (Some(w), None) => Some(w)
    case (Some(w), Some(a)) => Assign(w, a, c)
  }

  ghost function DeleteAgent(db: Db, a: AgentId): Option<Db> {
    if a !in db.agents then None
    else
      Some(db.(agents := db.agents - {a},
               grants := (set g | g in db.grants && g.agent != a),
               assignments := (set p | p in db.assignments && p.agent != a)))
  }

  datatype Transaction =
    | TxCreateAgent
    | TxDeleteAgent(agent: AgentId)
    | TxCreateConnection(connection: Connection)
    | TxDeleteConnection(target: ConnectionId)
    | TxPause(target: ConnectionId, disabled: bool)
    | TxRename(target: ConnectionId, slug: string, names: map<ToolId, string>, order: seq<ToolId>)
    | TxImport(source: string, slug: string, kind: ConnectionKind, importFor: Option<AgentId>)
    | TxAssign(agent: AgentId, target: ConnectionId)
    | TxUnassign(agent: AgentId, target: ConnectionId)
    | TxSave(agent: AgentId, visible: seq<ToolId>, granted: seq<ToolId>)
    | TxReconcile(target: ConnectionId, items: seq<Listed>)
    | TxDeclare(target: ConnectionId, toolKind: ToolKind, item: Listed)
    | TxEnsure(target: ConnectionId, item: Listed)
    | TxDeleteTool(tool: ToolId)

  ghost function Apply(db: Db, tx: Transaction): Option<Db> {
    match tx
    case TxCreateAgent => Some(db.(agents := db.agents + {db.nextAgent}, nextAgent := db.nextAgent + 1))
    case TxDeleteAgent(a) => DeleteAgent(db, a)
    case TxCreateConnection(connection) => CreateConnection(db, connection)
    case TxDeleteConnection(c) => DeleteConnection(db, c)
    case TxPause(c, disabled) =>
      if c !in db.connections then None
      else Some(db.(connections := db.connections[c := db.connections[c].(disabled := disabled)]))
    case TxRename(c, slug, names, order) => Rename(db, c, slug, names, order)
    case TxImport(source, slug, kind, agent) => Import(db, source, slug, kind, agent)
    case TxAssign(a, c) => Assign(db, a, c)
    case TxUnassign(a, c) => Unassign(db, a, c)
    case TxSave(a, visible, granted) => SetVisibleGrants(db, a, visible, granted)
    case TxReconcile(c, items) => Reconcile(db, c, items)
    case TxDeclare(c, kind, item) => Declare(db, c, kind, item)
    case TxEnsure(c, item) => Ensure(db, c, item)
    case TxDeleteTool(t) => DeleteTool(db, t)
  }

  /** A transaction that rolls back leaves the committed state alone. */
  ghost function Step(db: Db, tx: Transaction): Db {
    match Apply(db, tx)
    case None => db
    case Some(after) => after
  }

  ghost function Run(db: Db, txs: seq<Transaction>): Db
    decreases |txs|
  {
    if txs == [] then db else Run(Step(db, txs[0]), txs[1..])
  }

  // ---- What the upsert loops do -----------------------------------------------------

  /** The first part of the loop of ReconcileTools: names in the list, and only those,
      end up enabled; every known tool keeps its identifier, its connection and its name. */
  ghost predicate Refreshed(before: map<ToolId, Tool>, next: nat, c: ConnectionId, names: set<string>,
                            after: map<ToolId, Tool>, nextAfter: nat) {
    && Keyed(after)
    && next <= nextAfter
    && before.Keys <= after.Keys
    && (forall t | t in after :: t < nextAfter)
    && (forall t | t in before ::
          && after[t].connection == before[t].connection && after[t].upstream == before[t].upstream
            && after[t].kind == before[t].kind
          && (before[t].connection != c ==> after[t] == before[t])
          && (after[t].enabled <==> before[t].enabled || (before[t].connection == c && before[t].upstream in names)))
    && (forall t | t in after && t !in before ::
          t >= next && after[t].connection == c && after[t].enabled && after[t].upstream in names)
    && (forall name | name in names :: HasNamed(after, c, name))
  }

  function NamesOf(items: seq<Listed>): set<string> {
    set i | i in items :: i.upstream
  }

  lemma NamesOfSnoc(items: seq<Listed>, last: Listed)
    ensures NamesOf(items + [last]) == NamesOf(items) + {last.upstream}
  {
  }

  lemma UpsertRefreshes(tools: map<ToolId, Tool>, next: nat, c: ConnectionId, kind: ToolKind, item: Listed)
    requires Keyed(tools) && forall t | t in tools :: t < next
    requires Upsert(tools, next, c, kind, item).Some?
    ensures var p := Upsert(tools, next, c, kind, item).value;
      Refreshed(tools, next, c, {item.upstream}, p.tools, p.next)
  {
    var p := Upsert(tools, next, c, kind, item).value;
    if HasNamed(tools, c, item.upstream) {
      assert IsNamed(p.tools, c, item.upstream, Named(tools, c, item.upstream));
    } else {
      assert IsNamed(p.tools, c, item.upstream, next);
      forall t | t in tools ensures p.tools[t] == tools[t] && !IsNamed(tools, c, item.upstream, t) {}
    }
  }

  lemma RefreshedByNothing(tools: map<ToolId, Tool>, next: nat, c: ConnectionId)
    requires Keyed(tools) && forall t | t in tools :: t < next
    ensures Refreshed(tools, next, c, NamesOf([]), tools, next)
  {
  }

  lemma RefreshedCompose(before: map<ToolId, Tool>, next: nat, c: ConnectionId, names: set<string>,
                         middle: map<ToolId, Tool>, nextMiddle: nat,
                         more: set<string>, after: map<ToolId, Tool>, nextAfter: nat)
    requires forall t | t in before :: t < next
    requires Refreshed(before, next, c, names, middle, nextMiddle)
      && Refreshed(middle, nextMiddle, c, more, after, nextAfter)
    ensures Refreshed(before, next, c, names + more, after, nextAfter)
  {
    forall name | name in names + more ensures HasNamed(after, c, name) {
      if name !in more {
        assert IsNamed(after, c, name, Named(middle, c, name));
      }
    }
  }

  lemma RefreshedThenUpsert(before: map<ToolId, Tool>, next: nat, c: ConnectionId, items: seq<Listed>,
                            middle: map<ToolId, Tool>, nextMiddle: nat, last: Listed)
    requires forall t | t in before :: t < next
    requires Refreshed(before, next, c, NamesOf(items), middle, nextMiddle)
      && Upsert(middle, nextMiddle, c, McpTool, last).Some?
    ensures var q := Upsert(middle, nextMiddle, c, McpTool, last).value;
      Refreshed(before, next, c, NamesOf(items + [last]), q.tools, q.next)
  {
    UpsertRefreshes(middle, nextMiddle, c, McpTool, last);
    var q := Upsert(middle, nextMiddle, c, McpTool, last).value;
    RefreshedCompose(before, next, c, NamesOf(items), middle, nextMiddle, {last.upstream}, q.tools, q.next);
    NamesOfSnoc(items, last);
  }

  lemma {:induction false} UpsertAllRefreshes(tools: map<ToolId, Tool>, next: nat, c: ConnectionId, items: seq<Listed>)
    requires Keyed(tools) && forall t | t in tools :: t < next
    requires UpsertAll(tools, next, c, items).Some?
    ensures var p := UpsertAll(tools, next, c, items).value; Refreshed(tools, next, c, NamesOf(items), p.tools, p.next)
    decreases |items|
  {
    if items == [] {
      RefreshedByNothing(tools, next, c);
    } else {
      var n := |items| - 1;
      UpsertAllRefreshes(tools, next, c, items[..n]);
      var p := UpsertAll(tools, next, c, items[..n]).value;
      RefreshedThenUpsert(tools, next, c, items[..n], p.tools, p.next, items[n]);
      assert items[..n] + [items[n]] == items;
    }
  }

  lemma DisableAllKeepsKeys(db: Db, c: ConnectionId)
    requires Sound(db)
    ensures Keyed(DisableAll(db.tools, c))
  {
  }

  /** ReconcileTools: the listed names, and only those, are the connection's enabled tools;
      no tool of any connection is lost or changes identity; the new grants are exactly the
      assigned agents times the enabled tools. */
  lemma ReconcileMeaning(db: Db, c: ConnectionId, items: seq<Listed>)
    requires Inv(db) && c in db.connections && Reconcile(db, c, items).Some?
    ensures var after := Reconcile(db, c, items).value;
      && after == db.(tools := after.tools, nextTool := after.nextTool, grants := after.grants)
      && db.tools.Keys <= after.tools.Keys
      && (forall t | t in db.tools ::
            && after.tools[t].connection == db.tools[t].connection && after.tools[t].upstream == db.tools[t].upstream
            && (db.tools[t].connection != c ==> after.tools[t] == db.tools[t]))
      && (forall t | t in after.tools && after.tools[t].connection == c ::
            after.tools[t].enabled <==> after.tools[t].upstream in NamesOf(items))
      && (forall name | name in NamesOf(items) :: HasNamed(after.tools, c, name))
      && (forall g :: g in after.grants <==>
            g in db.grants ||
            (Assignment(g.agent, c) in db.assignments && g.tool in after.tools && after.tools[g.tool].connection == c
              && after.tools[g.tool].enabled))
  {
    DisableAllKeepsKeys(db, c);
    UpsertAllRefreshes(DisableAll(db.tools, c), db.nextTool, c, items);
    var after := Reconcile(db, c, items).value;
    forall g ensures g in after.grants <==>
        g in db.grants ||
        (Assignment(g.agent, c) in db.assignments && g.tool in after.tools && after.tools[g.tool].connection == c
          && after.tools[g.tool].enabled)
    {
      if Assignment(g.agent, c) in db.assignments && g.tool in after.tools && after.tools[g.tool].connection == c
        && after.tools[g.tool].enabled {
        var p := Assignment(g.agent, c);
        assert Grant(p.agent, g.tool) == g;
      }
    }
  }

  lemma ReconcileKeepsInv(db: Db, c: ConnectionId, items: seq<Listed>)
    requires Inv(db) && c in db.connections && Reconcile(db, c, items).Some?
    ensures Inv(Reconcile(db, c, items).value)
  {
    ReconcileMeaning(db, c, items);
    DisableAllKeepsKeys(db, c);
    UpsertAllRefreshes(DisableAll(db.tools, c), db.nextTool, c, items);
  }

  /** A rename changes exposed names only. */
  ghost predicate SameButExposed(before: map<ToolId, Tool>, after: map<ToolId, Tool>) {
    before.Keys == after.Keys && forall t | t in before :: after[t] == before[t].(exposed := after[t].exposed)
  }

  lemma RenameOneKeepsRest(tools: map<ToolId, Tool>, names: map<ToolId, string>, t: ToolId)
    requires Keyed(tools) && !RenameBlocked(tools, names, t)
    ensures var after := RenameOne(tools, names, t);
      && Keyed(after) && SameButExposed(tools, after)
      && (forall u | u in tools :: after[u].exposed == if u == t && u in names then names[u] else tools[u].exposed)
  {
  }

  lemma {:induction false} RenameAllKeepsRest(tools: map<ToolId, Tool>, names: map<ToolId, string>, order: seq<ToolId>)
    requires Keyed(tools) && RenameAll(tools, names, order).Some?
    ensures var after := RenameAll(tools, names, order).value;
      && Keyed(after) && SameButExposed(tools, after)
      && (forall t | t in tools :: after[t].exposed == if t in order && t in names then names[t] else tools[t].exposed)
    decreases |order|
  {
    if order != [] {
      var init, t := order[..|order| - 1], order[|order| - 1];
      RenameAllKeepsRest(tools, names, init);
      RenameOneKeepsRest(RenameAll(tools, names, init).value, names, t);
      assert forall u :: u in order <==> u in init || u == t by {
        assert order == init + [t];
      }
    }
  }

  lemma EnsureMeaning(db: Db, c: ConnectionId, item: Listed)
    requires Inv(db) && Ensure(db, c, item).Some?
    ensures var after := Ensure(db, c, item).value;
      Refreshed(db.tools, db.nextTool, c, {item.upstream}, after.tools, after.nextTool) && Inv(after)
  {
    UpsertRefreshes(db.tools, db.nextTool, c, CommandTool, item);
    var after := Ensure(db, c, item).value;
    forall p, t | p in after.assignments && t in after.tools && after.tools[t].connection == p.connection
      && after.tools[t].enabled
      ensures Grant(p.agent, t) in after.grants
    {
      if t in db.tools && db.tools[t].enabled {
        assert Grant(p.agent, t) in db.grants;
      }
    }
  }

  lemma SaveKeepsInv(db: Db, a: AgentId, visible: seq<ToolId>, granted: seq<ToolId>)
    requires Inv(db) && SetVisibleGrants(db, a, visible, granted).Some?
    ensures Inv(SetVisibleGrants(db, a, visible, granted).value)
  {
    var after := SetVisibleGrants(db, a, visible, granted).value;
    forall p, t | p in after.assignments && t in after.tools && after.tools[t].connection == p.connection
      && after.tools[t].enabled
      ensures Grant(p.agent, t) in after.grants
    {
      assert Grant(p.agent, t) in db.grants;
      if p.agent == a && t in visible {
        assert t in granted;
      }
    }
    if visible != [] {
      forall g | g in after.grants ensures g.agent in after.agents && g.tool in after.tools {}
    }
  }

  lemma ImportKeepsInv(db: Db, source: string, slug: string, kind: ConnectionKind, agent: Option<AgentId>)
    requires Inv(db) && Import(db, source, slug, kind, agent).Some?
    ensures Inv(Import(db, source, slug, kind, agent).value)
  {
    var c := ImportTarget(db, source);
    var written := Import(db, source, slug, kind, None).value;
    assert Inv(written) by {
      assert forall d | d in db.connections && d != c :: db.connections[d].source != Some(source);
    }
    assert agent.Some? ==> Import(db, source, slug, kind, agent) == Assign(written, agent.value, c);
    if agent.Some? {
      AssignKeepsInv(written, agent.value, c);
    }
  }

  lemma UnassignKeepsInv(db: Db, a: AgentId, c: ConnectionId)
    requires Inv(db)
    ensures Inv(Unassign(db, a, c).value)
  {
  }

  lemma DeclareKeepsInv(db: Db, c: ConnectionId, kind: ToolKind, item: Listed)
    requires Inv(db) && Declare(db, c, kind, item).Some?
    ensures Inv(Declare(db, c, kind, item).value)
  {
    var after := Declare(db, c, kind, item).value;
    assert forall t | t in db.tools :: after.tools[t] == db.tools[t] && !IsNamed(db.tools, c, item.upstream, t);
    assert Keyed(after.tools);
  }

  lemma RenameKeepsInv(db: Db, c: ConnectionId, slug: string, names: map<ToolId, string>, order: seq<ToolId>)
    requires Inv(db) && Rename(db, c, slug, names, order).Some?
    ensures Inv(Rename(db, c, slug, names, order).value)
  {
    if slug != db.connections[c].slug {
      RenameAllKeepsRest(db.tools, map t | t in names && t in db.tools && db.tools[t].connection == c ::
        names[t], order);
    }
  }

  lemma ForgetKeepsInv(db: Db, gone: set<ToolId>)
    requires Inv(db)
    ensures Inv(Forget(db, gone))
  {
  }

  lemma DeleteConnectionKeepsInv(db: Db, c: ConnectionId)
    requires Inv(db) && c in db.connections
    ensures Inv(DeleteConnection(db, c).value)
  {
    ForgetKeepsInv(db, ToolsOf(db.tools, c));
  }

  lemma DeleteAgentKeepsInv(db: Db, a: AgentId)
    requires Inv(db) && a in db.agents
    ensures Inv(DeleteAgent(db, a).value)
  {
  }

  lemma AssignKeepsInv(db: Db, a: AgentId, c: ConnectionId)
    requires Inv(db) && Assign(db, a, c).Some?
    ensures Inv(Assign(db, a, c).value)
  {
  }

  lemma TransactionKeepsInv(db: Db, tx: Transaction)
    requires Inv(db)
    ensures Inv(Step(db, tx))
  {
    if Apply(db, tx).Some? {
      match tx
      case TxReconcile(c, items) => if c in db.connections { ReconcileKeepsInv(db, c, items); }
      case TxEnsure(c, item) => EnsureMeaning(db, c, item);
      case TxSave(a, visible, granted) => SaveKeepsInv(db, a, visible, granted);
      case TxImport(source, slug, kind, agent) => ImportKeepsInv(db, source, slug, kind, agent);
      case TxRename(c, slug, names, order) => RenameKeepsInv(db, c, slug, names, order);
      case TxAssign(a, c) => AssignKeepsInv(db, a, c);
      case TxUnassign(a, c) => UnassignKeepsInv(db, a, c);
      case TxDeclare(c, kind, item) => DeclareKeepsInv(db, c, kind, item);
      case TxDeleteAgent(a) => DeleteAgentKeepsInv(db, a);
      case TxDeleteConnection(c) => DeleteConnectionKeepsInv(db, c);
      case TxDeleteTool(t) => ForgetKeepsInv(db, {t});
      case _ =>
    }
  }

  /** Over every sequence of transactions, committed or rolled back. */
  lemma {:induction false} WholeAccessAlways(db: Db, txs: seq<Transaction>)
    requires Inv(db)
    ensures Inv(Run(db, txs))
    decreases |txs|
  {
    if txs != [] {
      TransactionKeepsInv(db, txs[0]);
      WholeAccessAlways(Step(db, txs[0]), txs[1..]);
    }
  }

  // ---- Revocation -------------------------------------------------------------------

  /** Tool `t` was unchecked for agent `a` and nothing has granted it since. */
  ghost predicate Unchecked(db: Db, a: AgentId, t: ToolId) {
    && t < db.nextTool
    && Grant(a, t) !in db.grants
    && (t in db.tools ==> Assignment(a, db.tools[t].connection) !in db.assignments)
  }

  /** The operator acts of which one alone may give `t` back to `a`. */
  ghost predicate Regrants(db: Db, tx: Transaction, a: AgentId, t: ToolId) {
    t in db.tools &&
    match tx
    case TxAssign(b, c) => b == a && db.tools[t].connection == c
    case TxSave(b, visible, granted) => b == a && t in visible && t in granted
    case TxImport(source, _, _, agent) => agent == Some(a) && db.tools[t].connection == ImportTarget(db, source)
    case _ => false
  }

  /** No transaction of the run is such an act in the state it meets. */
  ghost predicate Quiet(db: Db, txs: seq<Transaction>, a: AgentId, t: ToolId)
    decreases |txs|
  {
    txs == [] || (!Regrants(db, txs[0], a, t) && Quiet(Step(db, txs[0]), txs[1..], a, t))
  }

  lemma SaveUnchecks(db: Db, a: AgentId, visible: seq<ToolId>, granted: seq<ToolId>, t: ToolId)
    requires Inv(db) && t in db.tools && t in visible && t !in granted
    requires SetVisibleGrants(db, a, visible, granted).Some?
    ensures Unchecked(SetVisibleGrants(db, a, visible, granted).value, a, t)
  {
    var after := SetVisibleGrants(db, a, visible, granted).value;
    assert Assignment(a, db.tools[t].connection) !in after.assignments;
  }

  lemma ReconcileKeepsUnchecked(db: Db, c: ConnectionId, items: seq<Listed>, a: AgentId, t: ToolId)
    requires Inv(db) && Unchecked(db, a, t) && c in db.connections && Reconcile(db, c, items).Some?
    ensures Unchecked(Reconcile(db, c, items).value, a, t)
  {
    ReconcileMeaning(db, c, items);
    DisableAllKeepsKeys(db, c);
    UpsertAllRefreshes(DisableAll(db.tools, c), db.nextTool, c, items);
  }

  lemma RenameKeepsUnchecked(db: Db, c: ConnectionId, slug: string, names: map<ToolId, string>, order: seq<ToolId>,
                             a: AgentId, t: ToolId)
    requires Inv(db) && Unchecked(db, a, t) && Rename(db, c, slug, names, order).Some?
    ensures Unchecked(Rename(db, c, slug, names, order).value, a, t)
  {
    if slug != db.connections[c].slug {
      RenameAllKeepsRest(db.tools, map u | u in names && u in db.tools && db.tools[u].connection == c ::
        names[u], order);
    }
  }

  lemma ImportKeepsUnchecked(db: Db, tx: Transaction, a: AgentId, t: ToolId)
    requires Inv(db) && Unchecked(db, a, t) && !Regrants(db, tx, a, t) && tx.TxImport?
    ensures Unchecked(Step(db, tx), a, t)
  {
  }

  lemma SaveKeepsUnchecked(db: Db, tx: Transaction, a: AgentId, t: ToolId)
    requires Inv(db) && Unchecked(db, a, t) && !Regrants(db, tx, a, t) && tx.TxSave?
    ensures Unchecked(Step(db, tx), a, t)
  {
  }

  lemma DeletionKeepsUnchecked(db: Db, tx: Transaction, a: AgentId, t: ToolId)
    requires Inv(db) && Unchecked(db, a, t)
    requires tx.TxDeleteAgent? || tx.TxDeleteConnection? || tx.TxDeleteTool?
    ensures Unchecked(Step(db, tx), a, t)
  {
  }

  lemma RestKeepsUnchecked(db: Db, tx: Transaction, a: AgentId, t: ToolId)
    requires Inv(db) && Unchecked(db, a, t) && !Regrants(db, tx, a, t)
    requires tx.TxAssign? || tx.TxUnassign? || tx.TxPause? || tx.TxCreateAgent? || tx.TxCreateConnection?
    ensures Unchecked(Step(db, tx), a, t)
  {
  }

  lemma DeclareKeepsUnchecked(db: Db, c: ConnectionId, kind: ToolKind, item: Listed, a: AgentId, t: ToolId)
    requires Inv(db) && Unchecked(db, a, t) && Declare(db, c, kind, item).Some?
    ensures Unchecked(Declare(db, c, kind, item).value, a, t)
  {
  }

  lemma EnsureKeepsUnchecked(db: Db, c: ConnectionId, item: Listed, a: AgentId, t: ToolId)
    requires Inv(db) && Unchecked(db, a, t) && Ensure(db, c, item).Some?
    ensures Unchecked(Ensure(db, c, item).value, a, t)
  {
    EnsureMeaning(db, c, item);
  }

  lemma TransactionKeepsUnchecked(db: Db, tx: Transaction, a: AgentId, t: ToolId)
    requires Inv(db) && Unchecked(db, a, t) && !Regrants(db, tx, a, t)
    ensures Unchecked(Step(db, tx), a, t)
  {
    if Apply(db, tx).Some? {
      match tx
      case TxReconcile(c, items) => if c in db.connections { ReconcileKeepsUnchecked(db, c, items, a, t); }
      case TxEnsure(c, item) => EnsureKeepsUnchecked(db, c, item, a, t);
      case TxDeclare(c, kind, item) => DeclareKeepsUnchecked(db, c, kind, item, a, t);
      case TxRename(c, slug, names, order) => RenameKeepsUnchecked(db, c, slug, names, order, a, t);
      case TxImport(_, _, _, _) => ImportKeepsUnchecked(db, tx, a, t);
      case TxSave(_, _, _) => SaveKeepsUnchecked(db, tx, a, t);
      case TxDeleteAgent(_) => DeletionKeepsUnchecked(db, tx, a, t);
      case TxDeleteConnection(_) => DeletionKeepsUnchecked(db, tx, a, t);
      case TxDeleteTool(_) => DeletionKeepsUnchecked(db, tx, a, t);
      case _ => RestKeepsUnchecked(db, tx, a, t);
    }
  }

  /** Once unchecked, a tool stays revoked through every refresh, declaration, rename,
      deletion and import of other agents, until one of the regranting acts. */
  lemma {:induction false} RevocationHolds(db: Db, txs: seq<Transaction>, a: AgentId, t: ToolId)
    requires Inv(db) && Unchecked(db, a, t) && Quiet(db, txs, a, t)
    ensures Unchecked(Run(db, txs), a, t)
    decreases |txs|
  {
    if txs != [] {
      TransactionKeepsUnchecked(db, txs[0], a, t);
      TransactionKeepsInv(db, txs[0]);
      RevocationHolds(Step(db, txs[0]), txs[1..], a, t);
    }
  }

  /** From a revoked state, one committed transaction leaves an enabled tool granted exactly
      when it is one of the regranting acts. */
  lemma RegrantsExactly(db: Db, tx: Transaction, a: AgentId, t: ToolId)
    requires Inv(db) && Unchecked(db, a, t) && Apply(db, tx).Some?
    requires t in Step(db, tx).tools && Step(db, tx).tools[t].enabled
    ensures Grant(a, t) in Step(db, tx).grants <==> Regrants(db, tx, a, t)
  {
    if !Regrants(db, tx, a, t) {
      TransactionKeepsUnchecked(db, tx, a, t);
    }
  }

  // ---- Every grant has a reason -----------------------------------------------------

  /** SetVisibleGrants replaces the agent's grants on exactly the visible tools.  A listed tool that
      has meanwhile been disabled is not granted. */
  lemma SaveExactly(db: Db, a: AgentId, visible: seq<ToolId>, granted: seq<ToolId>, g: Grant)
    requires Inv(db) && SetVisibleGrants(db, a, visible, granted).Some?
    ensures g in SetVisibleGrants(db, a, visible, granted).value.grants <==>
      if g.agent == a && g.tool in visible then g.tool in granted && g.tool in db.tools && db.tools[g.tool].enabled
      else g in db.grants
  {
    var checked := set t | t in db.tools && db.tools[t].enabled && t in visible && t in granted :: Grant(a, t);
    assert g in checked <==>
      g.agent == a && g.tool in db.tools && db.tools[g.tool].enabled && g.tool in visible && g.tool in granted;
  }

  /** So a disabled tool loses even a grant it had, though it was listed as granted: here is a run
      from the empty tables that ends like this. */
  lemma ListedButDisabled()
    ensures exists txs, a, t ::
      && Grant(a, t) in Run(EMPTY, txs).grants
      && SetVisibleGrants(Run(EMPTY, txs), a, [t], [t]).Some?
      && Grant(a, t) !in SetVisibleGrants(Run(EMPTY, txs), a, [t], [t]).value.grants
  {
    var connection, item := Connection("c", McpHttp, None, false), Listed("t", "c__t");
    var txs := [TxCreateAgent, TxCreateConnection(connection), TxReconcile(0, [item]), TxAssign(0, 0),
      TxReconcile(0, [])];
    var db1 := Step(EMPTY, TxCreateAgent);
    var db2 := Step(db1, TxCreateConnection(connection));
    var db3 := Step(db2, TxReconcile(0, [item]));
    var db4 := Step(db3, TxAssign(0, 0));
    var db5 := Step(db4, TxReconcile(0, []));
    FirstRows(connection);
    FirstTool(db2, item);
    FirstAssignment(db3);
    ToolVanishes(db4);
    RunFive(EMPTY, txs[0], txs[1], txs[2], txs[3], txs[4]);
    TransactionsKeepInv(txs);
    assert db5 == Run(EMPTY, txs);
    SaveExactly(db5, 0, [0], [0], Grant(0, 0));
  }

  lemma TransactionsKeepInv(txs: seq<Transaction>)
    ensures Inv(Run(EMPTY, txs))
  {
    assert Inv(EMPTY);
    WholeAccessAlways(EMPTY, txs);
  }

  lemma FirstRows(connection: Connection)
    requires connection.source.None?
    ensures Step(Step(EMPTY, TxCreateAgent), TxCreateConnection(connection))
            == EMPTY.(agents := {0}, connections := map[0 := connection], nextAgent := 1, nextConnection := 1)
  {
  }

  lemma FirstAssignment(db: Db)
    requires db.agents == {0} && 0 in db.connections && db.tools.Keys == {0} && db.grants == {} && db.assignments == {}
    requires db.tools[0].connection == 0 && db.tools[0].enabled
    ensures Step(db, TxAssign(0, 0)) == db.(grants := {Grant(0, 0)}, assignments := {Assignment(0, 0)})
  {
    var whole := set t | t in db.tools && db.tools[t].connection == 0 && db.tools[t].enabled :: Grant(0, t);
    assert Grant(0, 0) in whole;
    assert whole == {Grant(0, 0)};
  }

  lemma ToolVanishes(db: Db)
    requires 0 in db.connections && db.tools.Keys == {0} && db.tools[0].connection == 0
    ensures Step(db, TxReconcile(0, [])) == db.(tools := map[0 := db.tools[0].(enabled := false)])
  {
    assert DisableAll(db.tools, 0) == map[0 := db.tools[0].(enabled := false)];
  }

  lemma RunFive(db: Db, a: Transaction, b: Transaction, c: Transaction, d: Transaction, e: Transaction)
    ensures Run(db, [a, b, c, d, e]) == Step(Step(Step(Step(Step(db, a), b), c), d), e)
  {
    assert [a] + [b, c, d, e] == [a, b, c, d, e] && [b] + [c, d, e] == [b, c, d, e];
    assert [c] + [d, e] == [c, d, e] && [d] + [e] == [d, e] && [e] + [] == [e];
    RunCons(db, a, [b, c, d, e]);
    RunCons(Step(db, a), b, [c, d, e]);
    RunCons(Step(Step(db, a), b), c, [d, e]);
    RunCons(Step(Step(Step(db, a), b), c), d, [e]);
    RunCons(Step(Step(Step(Step(db, a), b), c), d), e, []);
  }

  lemma RunCons(db: Db, tx: Transaction, txs: seq<Transaction>)
    ensures Run(db, [tx] + txs) == Run(Step(db, tx), txs)
  {
    assert ([tx] + txs)[1..] == txs;
  }

  lemma FirstTool(db: Db, item: Listed)
    requires 0 in db.connections && db.tools == map[] && db.nextTool == 0 && db.assignments == {}
    ensures Step(db, TxReconcile(0, [item])) ==
            db.(tools := map[0 := Tool(0, McpTool, item.upstream, item.exposed, true)], nextTool := 1)
  {
    var none: seq<Listed> := [];
    assert [item][..0] == none;
    assert DisableAll(db.tools, 0) == map[];
    assert UpsertAll(map[], 0, 0, none) == Some(Tables(map[], 0));
    assert UpsertAll(map[], 0, 0, [item]) == Upsert(map[], 0, 0, McpTool, item);
  }

  /** The transaction takes the grant away. */
  ghost predicate Revokes(db: Db, tx: Transaction, g: Grant)
    requires g.tool in db.tools
  {
    match tx
    case TxUnassign(a, c) => a == g.agent && db.tools[g.tool].connection == c
    case TxSave(a, visible, granted) => a == g.agent && g.tool in visible
      && !(g.tool in granted && db.tools[g.tool].enabled)
    case TxDeleteAgent(a) => a == g.agent
    case TxDeleteConnection(c) => db.tools[g.tool].connection == c
    case TxDeleteTool(t) => t == g.tool
    case _ => false
  }

  /** A grant ends exactly when an operator takes it away or deletes one of its ends: a refresh,
      a rename, a pause or an import never ends one. */
  lemma GrantEndsExactly(db: Db, tx: Transaction, g: Grant)
    requires Inv(db) && g in db.grants && Apply(db, tx).Some?
    ensures g.tool in db.tools && (g !in Step(db, tx).grants <==> Revokes(db, tx, g))
  {
    match tx
    case TxReconcile(c, items) => if c in db.connections { ReconcileMeaning(db, c, items); }
    case TxSave(a, visible, granted) => SaveExactly(db, a, visible, granted, g);
    case TxEnsure(c, item) => EnsureMeaning(db, c, item);
    case TxImport(source, slug, kind, agent) => ImportAddsGrants(db, source, slug, kind, agent, g);
    case _ =>
  }

  lemma ImportAddsGrants(db: Db, source: string, slug: string, kind: ConnectionKind, agent: Option<AgentId>, g: Grant)
    requires Inv(db) && Import(db, source, slug, kind, agent).Some?
    ensures var after := Import(db, source, slug, kind, agent).value;
      && after.tools == db.tools && db.assignments <= after.assignments
      && (g in after.grants <==>
            || g in db.grants
            || (agent == Some(g.agent) && g.tool in db.tools && db.tools[g.tool].enabled
              && db.tools[g.tool].connection == ImportTarget(db, source)))
      && (agent.Some? ==> Assignment(agent.value, ImportTarget(db, source)) in after.assignments)
  {
  }

  /** A grant appears only for an agent that is then assigned the tool's connection, or because the
      tool was checked for that agent: nobody gains access otherwise. */
  lemma GrantHasReason(db: Db, tx: Transaction, g: Grant)
    requires Inv(db) && Apply(db, tx).Some? && g !in db.grants && g in Step(db, tx).grants
    ensures var after := Step(db, tx);
      && g.tool in after.tools && after.tools[g.tool].enabled
      && (|| Assignment(g.agent, after.tools[g.tool].connection) in after.assignments
          || (tx.TxSave? && tx.agent == g.agent && g.tool in tx.visible && g.tool in tx.granted
            && db.tools[g.tool].enabled))
  {
    match tx
    case TxReconcile(c, items) => if c in db.connections { ReconcileMeaning(db, c, items); }
    case TxSave(a, visible, granted) => SaveExactly(db, a, visible, granted, g);
    case TxEnsure(c, item) => EnsureGrants(db, c, item, g);
    case TxImport(source, slug, kind, agent) => ImportAddsGrants(db, source, slug, kind, agent, g);
    case _ =>
  }

  lemma EnsureGrants(db: Db, c: ConnectionId, item: Listed, g: Grant)
    requires Inv(db) && Ensure(db, c, item).Some? && g !in db.grants && g in Ensure(db, c, item).value.grants
    ensures var after := Ensure(db, c, item).value;
      && g.tool in after.tools && after.tools[g.tool].enabled
      && after.tools[g.tool].connection == c && Assignment(g.agent, c) in after.assignments
  {
  }

  // ---- What else a transaction changes ----------------------------------------------

  /** An assignment ends exactly when it is removed, when its agent saves a visible tool of its
      connection unchecked, or with its agent or connection. */
  lemma AssignmentEndsExactly(db: Db, tx: Transaction, p: Assignment)
    requires Inv(db) && p in db.assignments && Apply(db, tx).Some?
    ensures p !in Step(db, tx).assignments <==>
      match tx
      case TxUnassign(a, c) => p == Assignment(a, c)
      case TxSave(a, visible, granted) =>
        a == p.agent && exists t | t in visible ::
          t !in granted && t in db.tools && db.tools[t].connection == p.connection
      case TxDeleteAgent(a) => a == p.agent
      case TxDeleteConnection(c) => c == p.connection
      case _ => false
  {
    match tx
    case TxReconcile(c, items) => if c in db.connections { ReconcileMeaning(db, c, items); }
    case _ =>
  }

  /** An assignment begins exactly when it is made, or by an import for its agent into its connection. */
  lemma AssignmentBeginsExactly(db: Db, tx: Transaction, p: Assignment)
    requires Inv(db) && p !in db.assignments && Apply(db, tx).Some?
    ensures p in Step(db, tx).assignments <==>
      match tx
      case TxAssign(a, c) => p == Assignment(a, c)
      case TxImport(source, _, _, agent) => agent == Some(p.agent) && p.connection == ImportTarget(db, source)
      case _ => false
  {
    match tx
    case TxReconcile(c, items) => if c in db.connections { ReconcileMeaning(db, c, items); }
    case _ =>
  }

  /** A tool row ends exactly with its connection, or when it is deleted and was not discovered. */
  lemma ToolEndsExactly(db: Db, tx: Transaction, t: ToolId)
    requires Inv(db) && t in db.tools && Apply(db, tx).Some?
    ensures t !in Step(db, tx).tools <==>
      match tx
      case TxDeleteTool(u) => t == u && db.tools[t].kind != McpTool
      case TxDeleteConnection(c) => db.tools[t].connection == c
      case _ => false
  {
    if !tx.TxDeleteTool? && !tx.TxDeleteConnection? {
      ToolRowKept(db, tx, t);
    }
  }

  /** What a tool is never changes, and whether it is enabled only by a refresh of its connection,
      as it is listed or not, or by ensuring it. */
  lemma ToolRowKept(db: Db, tx: Transaction, t: ToolId)
    requires Inv(db) && t in db.tools && Apply(db, tx).Some?
    requires (!tx.TxDeleteTool? && !tx.TxDeleteConnection?) || t in Step(db, tx).tools
    ensures t in Step(db, tx).tools
    ensures var was, row := db.tools[t], Step(db, tx).tools[t];
      && row.connection == was.connection && row.upstream == was.upstream && row.kind == was.kind
      && row.enabled ==
        match tx
        case TxReconcile(c, items) => if was.connection == c then was.upstream in NamesOf(items) else was.enabled
        case TxEnsure(c, item) => was.enabled || (was.connection == c && was.upstream == item.upstream)
        case _ => was.enabled
    ensures !tx.TxReconcile? && !tx.TxEnsure? && !tx.TxRename? ==> Step(db, tx).tools[t] == db.tools[t]
  {
    match tx
    case TxReconcile(c, items) => ReconcileKeepsRow(db, c, items, t);
    case TxEnsure(c, item) => EnsureKeepsRow(db, c, item, t);
    case TxRename(c, slug, names, order) => RenameKeepsRow(db, c, slug, names, order, t);
    case TxDeclare(c, kind, item) => assert Declare(db, c, kind, item).value.tools[t] == db.tools[t];
    case _ => assert Step(db, tx).tools[t] == db.tools[t];
  }

  lemma EnsureKeepsRow(db: Db, c: ConnectionId, item: Listed, t: ToolId)
    requires Inv(db) && t in db.tools && Ensure(db, c, item).Some?
    ensures var after := Ensure(db, c, item).value.tools;
      && t in after && after[t].connection == db.tools[t].connection && after[t].upstream == db.tools[t].upstream
      && after[t].kind == db.tools[t].kind
      && after[t].enabled == (db.tools[t].enabled
        || (db.tools[t].connection == c && db.tools[t].upstream == item.upstream))
  {
    EnsureMeaning(db, c, item);
  }

  lemma ReconcileKeepsRow(db: Db, c: ConnectionId, items: seq<Listed>, t: ToolId)
    requires Inv(db) && t in db.tools && Reconcile(db, c, items).Some?
    ensures var after := Reconcile(db, c, items).value.tools;
      && t in after && after[t].connection == db.tools[t].connection && after[t].upstream == db.tools[t].upstream
      && after[t].kind == db.tools[t].kind
      && after[t].enabled == if db.tools[t].connection == c then db.tools[t].upstream in NamesOf(items)
        else db.tools[t].enabled
  {
    if c in db.connections {
      DisableAllKeepsKeys(db, c);
      UpsertAllRefreshes(DisableAll(db.tools, c), db.nextTool, c, items);
    }
  }

  lemma RenameKeepsRow(db: Db, c: ConnectionId, slug: string, names: map<ToolId, string>, order: seq<ToolId>, t: ToolId)
    requires Inv(db) && t in db.tools && Rename(db, c, slug, names, order).Some?
    ensures var after := Rename(db, c, slug, names, order).value.tools;
      t in after && after[t] == db.tools[t].(exposed := after[t].exposed)
  {
    if slug != db.connections[c].slug {
      RenameAllKeepsRest(db.tools, map u | u in names && u in db.tools && db.tools[u].connection == c ::
        names[u], order);
    }
  }

  lemma ReconcileAppears(db: Db, c: ConnectionId, items: seq<Listed>, t: ToolId)
    requires Inv(db) && c in db.connections && Reconcile(db, c, items).Some?
    requires t !in db.tools && t in Reconcile(db, c, items).value.tools
    ensures var tool := Reconcile(db, c, items).value.tools[t];
      t >= db.nextTool && tool.enabled && tool.connection == c && tool.kind == McpTool
        && tool.upstream in NamesOf(items)
  {
    DisableAllKeepsKeys(db, c);
    UpsertAllRefreshes(DisableAll(db.tools, c), db.nextTool, c, items);
    UpsertAllKinds(DisableAll(db.tools, c), db.nextTool, c, items, t);
  }

  /** A tool row appears enabled, under an identifier never used, as a discovered, a declared or an
      ensured tool of the connection named; a declared one fits the connection's kind. */
  lemma ToolAppears(db: Db, tx: Transaction, t: ToolId)
    requires Inv(db) && t !in db.tools && Apply(db, tx).Some? && t in Step(db, tx).tools
    ensures t >= db.nextTool
    ensures var tool := Step(db, tx).tools[t];
      && tool.enabled
      && match tx
         case TxReconcile(c, items) => tool.connection == c && tool.kind == McpTool && tool.upstream in NamesOf(items)
         case TxDeclare(c, kind, item) =>
           && tool == Tool(c, kind, item.upstream, item.exposed, true)
           && (kind == HttpTool ==> db.connections[c].kind == HttpApi)
           && (kind == CommandTool ==> db.connections[c].kind == Command)
         case TxEnsure(c, item) =>
           tool == Tool(c, CommandTool, item.upstream, item.exposed, true) && db.connections[c].kind == Command
         case _ => false
  {
    match tx
    case TxReconcile(c, items) =>
      if c in db.connections { ReconcileAppears(db, c, items, t); }
    case TxEnsure(c, item) => EnsureMeaning(db, c, item);
    case TxRename(c, slug, names, order) =>
      if slug != db.connections[c].slug {
        RenameAllKeepsRest(db.tools, map u | u in names && u in db.tools && db.tools[u].connection == c ::
          names[u], order);
      }
    case _ =>
  }

  lemma {:induction false} UpsertAllKinds(tools: map<ToolId, Tool>, next: nat, c: ConnectionId, items: seq<Listed>,
                                          t: ToolId)
    requires UpsertAll(tools, next, c, items).Some? && t in UpsertAll(tools, next, c, items).value.tools && t !in tools
    ensures UpsertAll(tools, next, c, items).value.tools[t].kind == McpTool
    decreases |items|
  {
    if items != [] {
      var init := items[..|items| - 1];
      if t in UpsertAll(tools, next, c, init).value.tools {
        UpsertAllKinds(tools, next, c, init, t);
      }
    }
  }

  ghost predicate Exposes(tools: map<ToolId, Tool>, c: ConnectionId, upstream: string, exposed: string) {
    exists t :: IsNamed(tools, c, upstream, t) && tools[t].exposed == exposed
  }

  lemma UpsertExposes(tools: map<ToolId, Tool>, next: nat, c: ConnectionId, item: Listed)
    requires Upsert(tools, next, c, McpTool, item).Some?
    ensures Exposes(Upsert(tools, next, c, McpTool, item).value.tools, c, item.upstream, item.exposed)
  {
    var after := Upsert(tools, next, c, McpTool, item).value.tools;
    var t := if HasNamed(tools, c, item.upstream) then Named(tools, c, item.upstream) else next;
    assert IsNamed(after, c, item.upstream, t);
  }

  lemma UpsertKeepsExposes(tools: map<ToolId, Tool>, next: nat, c: ConnectionId, item: Listed, upstream: string,
                           exposed: string)
    requires (forall t | t in tools :: t < next) && Upsert(tools, next, c, McpTool, item).Some?
    requires upstream != item.upstream && Exposes(tools, c, upstream, exposed)
    ensures Exposes(Upsert(tools, next, c, McpTool, item).value.tools, c, upstream, exposed)
  {
    var after := Upsert(tools, next, c, McpTool, item).value.tools;
    var t :| IsNamed(tools, c, upstream, t) && tools[t].exposed == exposed;
    assert IsNamed(after, c, upstream, t);
  }

  lemma ExposesNext(tools: map<ToolId, Tool>, next: nat, c: ConnectionId, item: Listed, upstream: string,
                    exposed: string)
    requires (forall t | t in tools :: t < next) && Upsert(tools, next, c, McpTool, item).Some?
    requires if upstream == item.upstream then exposed == item.exposed else Exposes(tools, c, upstream, exposed)
    ensures Exposes(Upsert(tools, next, c, McpTool, item).value.tools, c, upstream, exposed)
  {
    if upstream == item.upstream {
      UpsertExposes(tools, next, c, item);
    } else {
      UpsertKeepsExposes(tools, next, c, item, upstream, exposed);
    }
  }

  /** A refresh gives each listed tool the name exposed for it; of a name listed twice, the last. */
  lemma {:induction false} UpsertAllExposes(tools: map<ToolId, Tool>, next: nat, c: ConnectionId, items: seq<Listed>,
                                            i: nat)
    requires Keyed(tools) && (forall t | t in tools :: t < next) && UpsertAll(tools, next, c, items).Some?
    requires i < |items| && forall j | i < j < |items| :: items[j].upstream != items[i].upstream
    ensures Exposes(UpsertAll(tools, next, c, items).value.tools, c, items[i].upstream, items[i].exposed)
    decreases |items|
  {
    var init, last := items[..|items| - 1], items[|items| - 1];
    UpsertAllBounded(tools, next, c, init);
    if i < |items| - 1 {
      UpsertAllExposes(tools, next, c, init, i);
    }
    var mid := UpsertAll(tools, next, c, init).value;
    ExposesNext(mid.tools, mid.next, c, last, items[i].upstream, items[i].exposed);
  }

  lemma UpsertAllBounded(tools: map<ToolId, Tool>, next: nat, c: ConnectionId, items: seq<Listed>)
    requires Keyed(tools) && (forall t | t in tools :: t < next) && UpsertAll(tools, next, c, items).Some?
    ensures var p := UpsertAll(tools, next, c, items).value; forall t | t in p.tools :: t < p.next
  {
    UpsertAllRefreshes(tools, next, c, items);
  }

  /** After a refresh every listed tool is there under the name last listed for it. */
  lemma RefreshedNames(db: Db, c: ConnectionId, items: seq<Listed>, i: nat)
    requires Inv(db) && c in db.connections && Reconcile(db, c, items).Some?
    requires i < |items| && forall j | i < j < |items| :: items[j].upstream != items[i].upstream
    ensures Exposes(Reconcile(db, c, items).value.tools, c, items[i].upstream, items[i].exposed)
  {
    DisableAllKeepsKeys(db, c);
    UpsertAllExposes(DisableAll(db.tools, c), db.nextTool, c, items, i);
  }

  /** Connections and agents come, go and change by their own transactions alone. */
  lemma ConnectionAfter(db: Db, tx: Transaction, c: ConnectionId)
    requires Inv(db) && c in db.connections && Apply(db, tx).Some?
    ensures c in Step(db, tx).connections <==> tx != TxDeleteConnection(c)
    ensures c in Step(db, tx).connections ==>
      Step(db, tx).connections[c] ==
        match tx
        case TxPause(d, disabled) => if c == d then db.connections[c].(disabled := disabled) else db.connections[c]
        case TxRename(d, slug, _, _) => if c == d then db.connections[c].(slug := slug) else db.connections[c]
        case TxImport(source, _, kind, _) =>
          if db.connections[c].source == Some(source) then db.connections[c].(kind := kind) else db.connections[c]
        case _ => db.connections[c]
  {
    match tx
    case TxReconcile(d, items) => if d in db.connections { ReconcileMeaning(db, d, items); }
    case TxImport(source, slug, kind, agent) =>
      assert db.connections[c].source == Some(source) ==> HasSource(db, source) && BySource(db, source) == c;
    case _ =>
  }

  /** A connection begins exactly when it is created or an unknown source is imported: under an
      identifier never used, not disabled in the second case. */
  lemma ConnectionAppears(db: Db, tx: Transaction, c: ConnectionId)
    requires Inv(db) && c !in db.connections && Apply(db, tx).Some?
    ensures c in Step(db, tx).connections <==>
      && c == db.nextConnection
      && (tx.TxCreateConnection?
          || (tx.TxImport? && forall d | d in db.connections :: db.connections[d].source != Some(tx.source)))
    ensures c in Step(db, tx).connections ==>
      Step(db, tx).connections[c] ==
        if tx.TxCreateConnection? then tx.connection else Connection(tx.slug, tx.kind, Some(tx.source), false)
  {
    if tx.TxReconcile? && tx.target in db.connections {
      ReconcileMeaning(db, tx.target, tx.items);
    }
  }

  lemma AgentsAfter(db: Db, tx: Transaction)
    requires Inv(db) && Apply(db, tx).Some?
    ensures Step(db, tx).agents ==
      match tx
      case TxCreateAgent => db.agents + {db.nextAgent}
      case TxDeleteAgent(a) => db.agents - {a}
      case _ => db.agents
  {
    match tx
    case TxReconcile(d, items) => if d in db.connections { ReconcileMeaning(db, d, items); }
    case _ =>
  }

  /** When a transaction commits; a refresh of a known connection and a rename depend on the names
      of all their tools. */
  lemma CommitsExactly(db: Db, tx: Transaction)
    requires Inv(db) && !tx.TxRename? && !(tx.TxReconcile? && tx.target in db.connections)
    ensures Apply(db, tx).Some? <==>
      match tx
      case TxCreateAgent => true
      case TxDeleteAgent(a) => a in db.agents
      case TxCreateConnection(connection) =>
        connection.source.None? && forall d | d in db.connections :: db.connections[d].slug != connection.slug
      case TxDeleteConnection(c) => c in db.connections
      case TxPause(c, _) => c in db.connections
      case TxImport(source, slug, _, agent) =>
        && (agent.Some? ==> agent.value in db.agents)
        && ((exists d | d in db.connections :: db.connections[d].source == Some(source))
            || forall d | d in db.connections :: db.connections[d].slug != slug)
      case TxAssign(a, c) => a in db.agents && c in db.connections
      case TxUnassign(_, _) => true
      case TxSave(a, visible, granted) =>
        a in db.agents || forall t | t in visible && t in granted && t in db.tools :: !db.tools[t].enabled
      case TxDeclare(c, kind, item) =>
        && c in db.connections && (kind == HttpTool ==> db.connections[c].kind == HttpApi)
        && (kind == CommandTool ==> db.connections[c].kind == Command)
        && forall t | t in db.tools ::
             db.tools[t].exposed != item.exposed
               && !(db.tools[t].connection == c && db.tools[t].upstream == item.upstream)
      case TxEnsure(c, item) =>
        && c in db.connections && db.connections[c].kind == Command
        && forall t | t in db.tools && db.tools[t].exposed == item.exposed :: IsNamed(db.tools, c, item.upstream, t)
      case TxDeleteTool(t) => t in db.tools && db.tools[t].kind != McpTool
      case TxReconcile(_, items) => items == []
      case _ => true
  {
    match tx
    case TxDeclare(c, kind, item) => assert forall t | t in db.tools && IsNamed(db.tools, c, item.upstream, t) ::
      HasNamed(db.tools, c, item.upstream);
    case TxSave(a, visible, granted) => SaveCommitsExactly(db, a, visible, granted);
    case TxEnsure(c, item) => EnsureCommitsExactly(db, c, item);
    case _ =>
  }

  lemma SaveCommitsExactly(db: Db, a: AgentId, visible: seq<ToolId>, granted: seq<ToolId>)
    ensures SetVisibleGrants(db, a, visible, granted).Some? <==>
      a in db.agents || forall t | t in visible && t in granted && t in db.tools :: !db.tools[t].enabled
  {
    var checked := set t | t in db.tools && db.tools[t].enabled && t in visible && t in granted :: Grant(a, t);
    assert forall t :: Grant(a, t) in checked <==> t in db.tools && db.tools[t].enabled && t in visible && t in granted;
    if checked != {} {
      var g :| g in checked;
      assert g.tool in visible;
    }
  }

  lemma EnsureCommitsExactly(db: Db, c: ConnectionId, item: Listed)
    requires Inv(db)
    ensures Ensure(db, c, item).Some? <==>
      && c in db.connections && db.connections[c].kind == Command
      && forall t | t in db.tools && db.tools[t].exposed == item.exposed :: IsNamed(db.tools, c, item.upstream, t)
  {
    if HasNamed(db.tools, c, item.upstream) {
      var own := Named(db.tools, c, item.upstream);
      assert forall t :: IsNamed(db.tools, c, item.upstream, t) <==> t == own;
    } else {
      assert forall t :: !IsNamed(db.tools, c, item.upstream, t);
    }
  }

  /** No listed name is exposed by a tool other than the one it is listed for. */
  predicate NamesFree(tools: map<ToolId, Tool>, c: ConnectionId, items: seq<Listed>) {
    && (forall i, t | 0 <= i < |items| && t in tools && tools[t].exposed == items[i].exposed ::
          IsNamed(tools, c, items[i].upstream, t))
    && (forall i, j | 0 <= i < j < |items| && items[i].exposed == items[j].exposed ::
      items[i].upstream == items[j].upstream)
  }

  /** Every tool exposes its old name or one listed for it. */
  ghost predicate FromList(before: map<ToolId, Tool>, c: ConnectionId, items: seq<Listed>, after: map<ToolId, Tool>) {
    forall t | t in after ::
      || (t in before && after[t].exposed == before[t].exposed)
      || (after[t].connection == c && exists i | 0 <= i < |items| ::
        items[i] == Listed(after[t].upstream, after[t].exposed))
  }

  /** Then a refresh commits. */
  lemma {:induction false} UpsertAllCommits(tools: map<ToolId, Tool>, next: nat, c: ConnectionId, items: seq<Listed>)
    requires Keyed(tools) && (forall t | t in tools :: t < next) && NamesFree(tools, c, items)
    ensures UpsertAll(tools, next, c, items).Some?
    ensures FromList(tools, c, items, UpsertAll(tools, next, c, items).value.tools)
    decreases |items|
  {
    if items != [] {
      var n := |items| - 1;
      UpsertAllCommits(tools, next, c, items[..n]);
      UpsertAllRefreshes(tools, next, c, items[..n]);
      var mid := UpsertAll(tools, next, c, items[..n]).value;
      NameFreeLater(tools, next, c, items, mid.tools, mid.next);
      UpsertFromList(tools, c, items, mid.tools, mid.next);
    }
  }

  lemma NameFreeLater(before: map<ToolId, Tool>, next: nat, c: ConnectionId, items: seq<Listed>, mid: map<ToolId,
                      Tool>, nextMid: nat)
    requires items != [] && NamesFree(before, c, items) && FromList(before, c, items[..|items| - 1], mid)
    requires Refreshed(before, next, c, NamesOf(items[..|items| - 1]), mid, nextMid)
    ensures Upsert(mid, nextMid, c, McpTool, items[|items| - 1]).Some?
  {
    var last := items[|items| - 1];
    forall t | t in mid && mid[t].exposed == last.exposed ensures IsNamed(mid, c, last.upstream, t) {
      if t in before && mid[t].exposed == before[t].exposed {
        assert IsNamed(before, c, last.upstream, t);
      } else {
        var i :| 0 <= i < |items| - 1 && items[..|items| - 1][i] == Listed(mid[t].upstream, mid[t].exposed);
        assert items[i].exposed == last.exposed;
      }
    }
    if HasNamed(mid, c, last.upstream) {
      var own := Named(mid, c, last.upstream);
      assert forall t :: IsNamed(mid, c, last.upstream, t) ==> t == own;
    } else {
      assert forall t :: !IsNamed(mid, c, last.upstream, t);
    }
  }

  lemma UpsertFromList(before: map<ToolId, Tool>, c: ConnectionId, items: seq<Listed>, mid: map<ToolId, Tool>,
                       nextMid: nat)
    requires items != [] && FromList(before, c, items[..|items| - 1], mid)
    requires Upsert(mid, nextMid, c, McpTool, items[|items| - 1]).Some?
    ensures FromList(before, c, items, Upsert(mid, nextMid, c, McpTool, items[|items| - 1]).value.tools)
  {
    var n := |items| - 1;
    var after := Upsert(mid, nextMid, c, McpTool, items[n]).value.tools;
    forall t | t in after
      ensures (t in before && after[t].exposed == before[t].exposed)
        || (after[t].connection == c && exists i | 0 <= i < |items| ::
          items[i] == Listed(after[t].upstream, after[t].exposed))
    {
      if t in mid && after[t] == mid[t] {
        if !(t in before && mid[t].exposed == before[t].exposed) {
          var i :| 0 <= i < n && items[..n][i] == Listed(mid[t].upstream, mid[t].exposed);
          assert items[i] == Listed(after[t].upstream, after[t].exposed);
        }
      } else {
        assert items[n] == Listed(after[t].upstream, after[t].exposed);
      }
    }
  }

  lemma RefreshCommits(db: Db, c: ConnectionId, items: seq<Listed>)
    requires Inv(db) && c in db.connections && NamesFree(db.tools, c, items)
    ensures Reconcile(db, c, items).Some?
  {
    DisableAllKeepsKeys(db, c);
    var off := DisableAll(db.tools, c);
    forall i, t | 0 <= i < |items| && t in off && off[t].exposed == items[i].exposed
      ensures IsNamed(off, c, items[i].upstream, t) {
      assert IsNamed(db.tools, c, items[i].upstream, t);
    }
    UpsertAllCommits(off, db.nextTool, c, items);
  }

  /** The exposed name of `u` once the tools of `done` were renamed. */
  function NameAfter(tools: map<ToolId, Tool>, names: map<ToolId, string>, done: seq<ToolId>, u: ToolId): string
    requires u in tools
  {
    if u in done && u in names then names[u] else tools[u].exposed
  }

  /** No other tool has the new name of `t` once the tools of `done` were renamed. */
  predicate TurnFree(tools: map<ToolId, Tool>, names: map<ToolId, string>, done: seq<ToolId>, t: ToolId) {
    t in tools && t in names ==> forall u | u in tools && u != t :: NameAfter(tools, names, done, u) != names[t]
  }

  predicate TurnsFree(tools: map<ToolId, Tool>, names: map<ToolId, string>, order: seq<ToolId>) {
    forall k | 0 <= k < |order| :: TurnFree(tools, names, order[..k], order[k])
  }

  lemma TurnBlocked(tools: map<ToolId, Tool>, names: map<ToolId, string>, done: seq<ToolId>, t: ToolId)
    requires Keyed(tools) && RenameAll(tools, names, done).Some?
    ensures RenameBlocked(RenameAll(tools, names, done).value, names, t) <==> !TurnFree(tools, names, done, t)
  {
    RenameAllKeepsRest(tools, names, done);
    var after := RenameAll(tools, names, done).value;
    assert forall u | u in tools :: after[u].exposed == NameAfter(tools, names, done, u);
  }

  lemma TurnsFreeLast(tools: map<ToolId, Tool>, names: map<ToolId, string>, init: seq<ToolId>, t: ToolId)
    ensures TurnsFree(tools, names, init + [t]) <==> TurnsFree(tools, names, init) && TurnFree(tools, names, init, t)
  {
    var order := init + [t];
    assert forall k | 0 <= k <= |init| :: order[..k] == init[..k];
    assert forall k | 0 <= k < |init| :: order[k] == init[k];
    assert order[..|init|] == init && order[|init|] == t;
    if TurnsFree(tools, names, order) {
      assert TurnFree(tools, names, order[..|init|], order[|init|]);
      forall k | 0 <= k < |init| ensures TurnFree(tools, names, init[..k], init[k]) {
        assert TurnFree(tools, names, order[..k], order[k]);
      }
    }
  }

  lemma {:induction false} RenameAllCommits(tools: map<ToolId, Tool>, names: map<ToolId, string>, order: seq<ToolId>)
    requires Keyed(tools)
    ensures RenameAll(tools, names, order).Some? <==> TurnsFree(tools, names, order)
    decreases |order|
  {
    if order != [] {
      var init, t := order[..|order| - 1], order[|order| - 1];
      RenameAllCommits(tools, names, init);
      assert order == init + [t];
      TurnsFreeLast(tools, names, init, t);
      if RenameAll(tools, names, init).Some? {
        TurnBlocked(tools, names, init, t);
      }
    }
  }

  predicate SlugFree(db: Db, c: ConnectionId, slug: string) {
    forall d | d in db.connections && d != c :: db.connections[d].slug != slug
  }

  lemma RenameByRows(db: Db, c: ConnectionId, slug: string, names: map<ToolId, string>, order: seq<ToolId>)
    requires c in db.connections && forall t | t in names :: t in db.tools && db.tools[t].connection == c
    ensures var rows := if db.connections[c].slug == slug then Some(db.tools) else RenameAll(db.tools, names, order);
      && (Rename(db, c, slug, names, order).Some? <==> SlugFree(db, c, slug) && rows.Some?)
      && (Rename(db, c, slug, names, order).Some? ==> Rename(db, c, slug, names, order).value.tools == rows.value)
  {
    var own := map t | t in names && t in db.tools && db.tools[t].connection == c :: names[t];
    assert names == own;
  }

  /** A rename commits exactly when no other connection has the slug and, if that is new, no tool of
      the connection takes a name another tool has at that moment.  Then exactly the tools of the
      connection that were visited have their new names. */
  lemma RenamedExactly(db: Db, c: ConnectionId, slug: string, names: map<ToolId, string>, order: seq<ToolId>)
    requires Inv(db) && c in db.connections && forall t | t in names :: t in db.tools && db.tools[t].connection == c
    ensures Rename(db, c, slug, names, order).Some? <==>
      SlugFree(db, c, slug) && (db.connections[c].slug == slug || TurnsFree(db.tools, names, order))
    ensures Rename(db, c, slug, names, order).Some? ==>
      var after, moves := Rename(db, c, slug, names, order).value, db.connections[c].slug != slug;
      && after.tools.Keys == db.tools.Keys
      && forall t | t in db.tools ::
        after.tools[t].exposed == if moves && t in names && t in order then names[t] else db.tools[t].exposed
  {
    RenameByRows(db, c, slug, names, order);
    RenameAllCommits(db.tools, names, order);
    if RenameAll(db.tools, names, order).Some? {
      RenameAllKeepsRest(db.tools, names, order);
    }
  }

  // ---- A save inside EnsureCommandTool ----------------------------------------------

  /** The tool the upsert updates or inserts. */
  ghost function TargetTool(db: Db, c: ConnectionId, item: Listed): ToolId {
    if HasNamed(db.tools, c, item.upstream) then Named(db.tools, c, item.upstream) else db.nextTool
  }

  /** EnsureCommandTool takes no lock of a connection when it updates a tool.  Its last statement
      grants the tool to the agents it has read from agent_connections; that may be before other
      transactions commit, and its own commit after.  An agent deleted meanwhile makes it fail. */
  ghost function LateEnsure(now: Db, read: set<Assignment>, c: ConnectionId, item: Listed): Option<Db> {
    if c !in now.connections || now.connections[c].kind != Command then None
    else
      match Upsert(now.tools, now.nextTool, c, CommandTool, item)
      case None => None
      case Some(p) =>
        var t := TargetTool(now, c, item);
        if exists p | p in read :: p.connection == c && p.agent !in now.agents then None
        else
          Some(now.(tools := p.tools, nextTool := p.next,
                    grants := now.grants + LateGrants(read, c, t)))
  }

  function LateGrants(read: set<Assignment>, c: ConnectionId, t: ToolId): set<Grant> {
    set p | p in read && p.connection == c :: Grant(p.agent, t)
  }

  lemma LateGrantsMeaning(read: set<Assignment>, c: ConnectionId, t: ToolId, g: Grant)
    ensures g in LateGrants(read, c, t) <==> g.tool == t && Assignment(g.agent, c) in read
  {
    if g.tool == t && Assignment(g.agent, c) in read {
      var p := Assignment(g.agent, c);
      assert Grant(p.agent, t) == g;
    }
  }

  /** Read in the state it commits to, it is EnsureCommandTool as one step. */
  lemma PromptEnsure(db: Db, c: ConnectionId, item: Listed)
    requires Inv(db)
    ensures LateEnsure(db, db.assignments, c, item) == Ensure(db, c, item)
  {
  }

  /** After any other transactions, it is as if they had come first exactly when each agent it read
      is still assigned the connection or holds the tool anyway. */
  lemma LateEnsureExactly(now: Db, read: set<Assignment>, c: ConnectionId, item: Listed)
    requires Inv(now) && HasNamed(now.tools, c, item.upstream) && LateEnsure(now, read, c, item).Some?
    requires forall p | p in now.assignments && p.connection == c :: p in read
    ensures LateEnsure(now, read, c, item) == Ensure(now, c, item) <==>
      forall p | p in read && p.connection == c ::
        p in now.assignments || Grant(p.agent, Named(now.tools, c, item.upstream)) in now.grants
  {
    var t := Named(now.tools, c, item.upstream);
    var late, prompt := LateGrants(read, c, t), LateGrants(now.assignments, c, t);
    PromptEnsure(now, c, item);
    forall g ensures g in late <==> g.tool == t && Assignment(g.agent, c) in read {
      LateGrantsMeaning(read, c, t, g);
    }
    forall g ensures g in prompt <==> g.tool == t && Assignment(g.agent, c) in now.assignments {
      LateGrantsMeaning(now.assignments, c, t, g);
    }
    if now.grants + late == now.grants + prompt {
      forall p | p in read && p.connection == c ensures p in now.assignments || Grant(p.agent, t) in now.grants {
        assert Grant(p.agent, t) in late;
        assert p == Assignment(p.agent, c);
      }
    }
    if forall p | p in read && p.connection == c :: p in now.assignments || Grant(p.agent, t) in now.grants {
      forall g | g in late ensures g in now.grants + prompt {
        assert Assignment(g.agent, c) in read;
      }
      assert now.grants + late == now.grants + prompt;
    }
  }

  /** It keeps whole access exactly when it has read every agent now assigned the connection, or
      the agents it missed hold the tool anyway.  The same goes for an insert. */
  lemma LateWholeAccessExactly(now: Db, read: set<Assignment>, c: ConnectionId, item: Listed)
    requires Inv(now) && LateEnsure(now, read, c, item).Some?
    ensures WholeAccess(LateEnsure(now, read, c, item).value) <==>
      forall p | p in now.assignments && p.connection == c ::
        p in read || Grant(p.agent, TargetTool(now, c, item)) in now.grants
  {
    var late, t := LateEnsure(now, read, c, item).value, TargetTool(now, c, item);
    UpsertTarget(now, c, item);
    forall p, u | p in now.assignments && u in late.tools && late.tools[u].connection == p.connection
      && late.tools[u].enabled
      ensures Grant(p.agent, u) in late.grants <==> u != t || p in read || Grant(p.agent, t) in now.grants
    {
      LateGrantsMeaning(read, c, t, Grant(p.agent, u));
      assert p == Assignment(p.agent, p.connection);
    }
  }

  lemma UpsertTarget(now: Db, c: ConnectionId, item: Listed)
    requires Inv(now) && Upsert(now.tools, now.nextTool, c, CommandTool, item).Some?
    ensures var tools, t := Upsert(now.tools, now.nextTool, c, CommandTool, item).value.tools, TargetTool(now, c, item);
      && t in tools && tools[t].connection == c && tools[t].enabled && tools.Keys == now.tools.Keys + {t}
      && forall u | u in now.tools && u != t :: tools[u] == now.tools[u]
  {
  }

  /** The save ends the agent's hold on tool `t` of a connection it was assigned. */
  predicate SaveTakes(db: Db, a: AgentId, visible: seq<ToolId>, granted: seq<ToolId>, c: ConnectionId, t: ToolId)
    requires t in db.tools
  {
    && Assignment(a, c) in db.assignments && c in Individual(db.tools, visible, granted)
    && if t in visible then !(t in granted && db.tools[t].enabled) else Grant(a, t) !in db.grants
  }

  /** With a per-tool save in between, the two orders differ exactly when the save takes the tool
      from an agent that was assigned the connection.  Then the tool, unchecked and committed as
      such, is granted again without any of the regranting acts. */
  lemma LateGrantExactly(db: Db, a: AgentId, visible: seq<ToolId>, granted: seq<ToolId>, c: ConnectionId, item: Listed)
    requires Inv(db) && HasNamed(db.tools, c, item.upstream) && SetVisibleGrants(db, a, visible, granted).Some?
    requires var now := SetVisibleGrants(db, a, visible, granted).value; LateEnsure(now, db.assignments, c, item).Some?
    ensures var now, t := SetVisibleGrants(db, a, visible, granted).value, Named(db.tools, c, item.upstream);
      var late := LateEnsure(now, db.assignments, c, item);
      && (late != Ensure(now, c, item) <==> SaveTakes(db, a, visible, granted, c, t))
      && (Unchecked(now, a, t) && Grant(a, t) in late.value.grants <==> SaveTakes(db, a, visible, granted, c, t))
  {
    var now, t := SetVisibleGrants(db, a, visible, granted).value, Named(db.tools, c, item.upstream);
    SaveKeepsInv(db, a, visible, granted);
    SaveExactly(db, a, visible, granted, Grant(a, t));
    SavedAssignments(db, a, visible, granted, c);
    LateEnsureExactly(now, db.assignments, c, item);
    LateGrantsMeaning(db.assignments, c, t, Grant(a, t));
    forall p | p in db.assignments && p.connection == c && p.agent != a ensures p in now.assignments {
      assert p == Assignment(p.agent, c);
    }
  }

  /** It can happen to every command tool of a connection an agent is assigned: the agent's save
      unchecks it, and an EnsureCommandTool already past its reading, which changes nothing else,
      brings it back, enabled and without an assignment. */
  lemma UncheckedToolReturns(db: Db, a: AgentId, t: ToolId)
    requires Inv(db) && t in db.tools && Assignment(a, db.tools[t].connection) in db.assignments
    requires db.connections[db.tools[t].connection].kind == Command
    ensures SetVisibleGrants(db, a, [t], []).Some?
    ensures var now, c := SetVisibleGrants(db, a, [t], []).value, db.tools[t].connection;
      var late := LateEnsure(now, db.assignments, c, Listed(db.tools[t].upstream, db.tools[t].exposed));
      && Unchecked(now, a, t) && late.Some? && t in late.value.tools && late.value.tools[t].enabled
      && Grant(a, t) in late.value.grants && Assignment(a, c) !in late.value.assignments
  {
    var now, c := SetVisibleGrants(db, a, [t], []).value, db.tools[t].connection;
    SaveUnchecks(db, a, [t], [], t);
    SavedAssignments(db, a, [t], [], c);
    assert IsNamed(db.tools, c, db.tools[t].upstream, t);
    LateGrantsMeaning(db.assignments, c, t, Grant(a, t));
  }

  lemma SavedAssignments(db: Db, a: AgentId, visible: seq<ToolId>, granted: seq<ToolId>, c: ConnectionId)
    requires SetVisibleGrants(db, a, visible, granted).Some?
    ensures var now := SetVisibleGrants(db, a, visible, granted).value;
      && now.tools == db.tools && now.assignments <= db.assignments
      && (forall p | p in db.assignments && p.agent != a :: p in now.assignments)
      && (Assignment(a, c) in now.assignments <==>
            Assignment(a, c) in db.assignments && c !in Individual(db.tools, visible, granted))
  {
  }

  // ---- What an agent sees -----------------------------------------------------------

  /** ToolsForAgent, as a set of identifiers. */
  ghost function Visible(db: Db, a: AgentId): set<ToolId> {
    set t | t in db.tools && Grant(a, t) in db.grants && db.tools[t].enabled
            && db.tools[t].connection in db.connections && !db.connections[db.tools[t].connection].disabled
  }

  /** A tool that vanishes from the catalog and comes back is the same tool, still granted;
      in between it is not callable. */
  lemma GrantSurvivesOutage(db: Db, c: ConnectionId, without: seq<Listed>, again: seq<Listed>, a: AgentId, t: ToolId)
    requires Inv(db) && t in db.tools && db.tools[t].connection == c && Grant(a, t) in db.grants
    requires db.tools[t].upstream !in NamesOf(without) && db.tools[t].upstream in NamesOf(again)
    requires Reconcile(db, c, without).Some? && Reconcile(Reconcile(db, c, without).value, c, again).Some?
    ensures var down := Reconcile(db, c, without).value;
      var up := Reconcile(down, c, again).value;
      && t !in Visible(down, a)
      && t in up.tools && Grant(a, t) in up.grants
      && (t in Visible(up, a) <==> !db.connections[c].disabled)
  {
    ReconcileMeaning(db, c, without);
    ReconcileKeepsInv(db, c, without);
    ReconcileMeaning(Reconcile(db, c, without).value, c, again);
  }

  // ---- The store --------------------------------------------------------------------

  /** The tables, updated statement by statement as the transactions do it.  `ok` is false
      when the transaction rolled back. */
  class Store {
    var agents: set<AgentId>
    var connections: map<ConnectionId, Connection>
    var tools: map<ToolId, Tool>
    var grants: set<Grant>
    var assignments: set<Assignment>
    var nextAgent: nat
    var nextConnection: nat
    var nextTool: nat

    ghost function State(): Db
      reads this
    {
      Db(agents, connections, tools, grants, assignments, nextAgent, nextConnection, nextTool)
    }

    constructor ()
      ensures State() == EMPTY && Inv(State())
    {
      agents, connections, tools, grants, assignments := {}, map[], map[], {}, {};
      nextAgent, nextConnection, nextTool := 0, 0, 0;
    }

    method SetAgentConnection(a: AgentId, c: ConnectionId, enabled: bool) returns (ok: bool)
      requires Inv(State())
      modifies this
      ensures Inv(State())
      ensures var after := if enabled then Assign(old(State()), a, c) else Unassign(old(State()), a, c);
        ok == after.Some? && State() == (if ok then after.value else old(State()))
    {
      ghost var before := State();
      if enabled {
        if a !in agents || c !in connections {
          return false;
        }
        assignments := assignments + {Assignment(a, c)};
        grants := grants + set t | t in tools && tools[t].connection == c && tools[t].enabled :: Grant(a, t);
        assert Assign(before, a, c) == Some(State());
        AssignKeepsInv(before, a, c);
      } else {
        assignments := assignments - {Assignment(a, c)};
        grants := set g | g in grants && !(g.agent == a && g.tool in tools && tools[g.tool].connection == c);
        assert Unassign(before, a, c) == Some(State());
        UnassignKeepsInv(before, a, c);
      }
      ok := true;
    }

    method SaveVisibleGrants(a: AgentId, visible: seq<ToolId>, granted: seq<ToolId>) returns (ok: bool)
      requires Inv(State())
      modifies this
      ensures Inv(State())
      ensures ok == SetVisibleGrants(old(State()), a, visible, granted).Some?
      ensures State() == if ok then SetVisibleGrants(old(State()), a, visible, granted).value else old(State())
    {
      if visible == [] {
        return true;
      }
      ghost var before := State();
      var savedAssignments, savedGrants := assignments, grants;
      var individual := Individual(tools, visible, granted);
      assignments := set p | p in assignments && !(p.agent == a && p.connection in individual);
      grants := set g | g in grants && !(g.agent == a && g.tool in visible);
      var checked := set t | t in tools && tools[t].enabled && t in visible && t in granted :: Grant(a, t);
      if checked != {} && a !in agents {
        assignments, grants := savedAssignments, savedGrants;
        return false;
      }
      grants := grants + checked;
      assert SetVisibleGrants(before, a, visible, granted) == Some(State());
      SaveKeepsInv(before, a, visible, granted);
      ok := true;
    }

    /** INSERT ... ON CONFLICT for one listed tool; false on a unique violation. */
    method UpsertTool(c: ConnectionId, kind: ToolKind, item: Listed) returns (ok: bool, id: ToolId)
      requires Keyed(tools) && forall t | t in tools :: t < nextTool
      modifies this`tools, this`nextTool
      ensures ok == Upsert(old(tools), old(nextTool), c, kind, item).Some?
      ensures ok ==> Upsert(old(tools), old(nextTool), c, kind, item) == Some(Tables(tools, nextTool))
      ensures ok ==> id == if HasNamed(old(tools), c, item.upstream) then Named(old(tools), c, item.upstream)
        else old(nextTool)
      ensures !ok ==> tools == old(tools) && nextTool == old(nextTool)
    {
      if t :| t in tools && tools[t].connection == c && tools[t].upstream == item.upstream {
        assert IsNamed(tools, c, item.upstream, t);
        id := t;
        ok := !TakenByOther(tools, item.exposed, t);
        if ok {
          tools := tools[t := tools[t].(exposed := item.exposed, enabled := true)];
        }
      } else {
        id := nextTool;
        ok := !Taken(tools, item.exposed);
        if ok {
          tools := tools[nextTool := Tool(c, kind, item.upstream, item.exposed, true)];
          nextTool := nextTool + 1;
        }
      }
    }

    method ReconcileTools(c: ConnectionId, items: seq<Listed>) returns (ok: bool)
      requires Inv(State())
      modifies this
      ensures Inv(State())
      ensures ok == Reconcile(old(State()), c, items).Some?
      ensures State() == if ok then Reconcile(old(State()), c, items).value else old(State())
    {
      ghost var before := State();
      if c !in connections {
        return items == [];
      }
      var savedTools, savedNext := tools, nextTool;
      DisableAllKeepsKeys(State(), c);
      tools := DisableAll(tools, c);
      ghost var disabled := tools;
      var i := 0;
      while i < |items|
        invariant 0 <= i <= |items|
        invariant State() == old(State()).(tools := tools, nextTool := nextTool)
        invariant UpsertAll(disabled, savedNext, c, items[..i]) == Some(Tables(tools, nextTool))
        invariant Keyed(tools) && forall t | t in tools :: t < nextTool
      {
        assert items[..i + 1][..i] == items[..i];
        var done, _ := UpsertTool(c, McpTool, items[i]);
        if !done {
          UpsertAllFails(disabled, savedNext, c, items, i + 1);
          tools, nextTool := savedTools, savedNext;
          return false;
        }
        UpsertAllRefreshes(disabled, savedNext, c, items[..i + 1]);
        i := i + 1;
      }
      assert items[..|items|] == items;
      grants := grants + set p, t | p in assignments && p.connection == c && t in tools && tools[t].connection == c
        && tools[t].enabled ::
        Grant(p.agent, t);
      assert Reconcile(before, c, items) == Some(State());
      ReconcileKeepsInv(before, c, items);
      ok := true;
    }

    method CreateDeclaredTool(c: ConnectionId, kind: ToolKind, item: Listed) returns (ok: bool)
      requires Inv(State())
      modifies this
      ensures Inv(State())
      ensures ok == Declare(old(State()), c, kind, item).Some?
      ensures State() == if ok then Declare(old(State()), c, kind, item).value else old(State())
    {
      ghost var before := State();
      if c !in connections || !KindsMatch(kind, connections[c].kind) {
        return false;
      }
      if t :| t in tools && tools[t].connection == c && tools[t].upstream == item.upstream {
        assert IsNamed(tools, c, item.upstream, t);
        return false;
      }
      if Taken(tools, item.exposed) {
        return false;
      }
      var id := nextTool;
      tools := tools[id := Tool(c, kind, item.upstream, item.exposed, true)];
      nextTool := nextTool + 1;
      grants := grants + set p | p in assignments && p.connection == c :: Grant(p.agent, id);
      assert Declare(before, c, kind, item) == Some(State());
      DeclareKeepsInv(before, c, kind, item);
      ok := true;
    }

    method EnsureCommandTool(c: ConnectionId, item: Listed) returns (ok: bool)
      requires Inv(State())
      modifies this
      ensures Inv(State())
      ensures ok == Ensure(old(State()), c, item).Some?
      ensures State() == if ok then Ensure(old(State()), c, item).value else old(State())
    {
      ghost var before := State();
      if c !in connections || connections[c].kind != Command {
        return false;
      }
      var id;
      ok, id := UpsertTool(c, CommandTool, item);
      if ok {
        grants := grants + set p | p in assignments && p.connection == c :: Grant(p.agent, id);
        assert Ensure(before, c, item) == Some(State());
        EnsureMeaning(before, c, item);
      }
    }

    /** The loop of UpdateConnection over the renamed tools. */
    method RenameTools(names: map<ToolId, string>, order: seq<ToolId>) returns (ok: bool)
      requires Keyed(tools)
      modifies this`tools
      ensures ok == RenameAll(old(tools), names, order).Some?
      ensures tools == if ok then RenameAll(old(tools), names, order).value else old(tools)
    {
      var saved := tools;
      var i := 0;
      while i < |order|
        invariant 0 <= i <= |order|
        invariant RenameAll(saved, names, order[..i]) == Some(tools)
      {
        assert order[..i + 1][..i] == order[..i];
        var t := order[i];
        if RenameBlocked(tools, names, t) {
          RenameAllFails(saved, names, order, i + 1);
          tools := saved;
          return false;
        }
        tools := RenameOne(tools, names, t);
        i := i + 1;
      }
      assert order[..|order|] == order;
      ok := true;
    }

    /** ResolveGrantedTool: the tool an agent may call under an exposed name. */
    method ResolveGrantedTool(a: AgentId, exposed: string) returns (found: Option<ToolId>)
      requires Inv(State())
      ensures forall t :: found == Some(t) <==>
        && t in tools && tools[t].exposed == exposed && tools[t].enabled
        && Grant(a, t) in grants && !connections[tools[t].connection].disabled
      ensures forall t :: found == Some(t) <==> t in Visible(State(), a) && tools[t].exposed == exposed
    {
      if t :| t in tools && Grant(a, t) in grants && tools[t].exposed == exposed && tools[t].enabled
              && !connections[tools[t].connection].disabled {
        found := Some(t);
      } else {
        found := None;
      }
    }
  }

  lemma {:induction false} UpsertAllFails(tools: map<ToolId, Tool>, next: nat, c: ConnectionId, items: seq<Listed>,
                                          k: nat)
    requires k <= |items| && UpsertAll(tools, next, c, items[..k]) == None
    ensures UpsertAll(tools, next, c, items) == None
    decreases |items|
  {
    if k < |items| {
      assert items[..|items| - 1][..k] == items[..k];
      UpsertAllFails(tools, next, c, items[..|items| - 1], k);
    } else {
      assert items[..k] == items;
    }
  }

  lemma {:induction false} RenameAllFails(tools: map<ToolId, Tool>, names: map<ToolId, string>, order: seq<ToolId>,
                                          k: nat)
    requires k <= |order| && RenameAll(tools, names, order[..k]) == None
    ensures RenameAll(tools, names, order) == None
    decreases |order|
  {
    if k < |order| {
      assert order[..|order| - 1][..k] == order[..k];
      RenameAllFails(tools, names, order[..|order| - 1], k);
    } else {
      assert order[..k] == order;
    }
  }
}
