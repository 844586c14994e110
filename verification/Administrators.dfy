/** Interleaved transactions that create or change browser users under one advisory lock
    (internal/store/admin.go).

    A transaction takes the lock, then runs statement by statement against the committed users
    and its own writes; COMMIT publishes them and releases the lock, ROLLBACK drops them. */
module Administrators {
  import opened Prelude

  type TxId = nat
  type UserId = nat

  datatype Role = Admin | Operator | Viewer
  datatype User = User(name: string, role: Role, enabled: bool)

  type Users = map<UserId, User>

  datatype Request =
    | Setup(name: string)
    | Create(actor: UserId, name: string, role: Role)
    | SetAccess(actor: UserId, target: UserId, role: Role, enabled: bool)

  /** Where a transaction is; `users` is what it sees: committed rows with its own writes. */
  datatype Tx =
    | Waiting(request: Request)
    | Locked(request: Request)
    | Authorized(request: Request)
    | Written(request: Request, users: Users)
    | Counted(request: Request, users: Users)
    | Committed(request: Request)
    | RolledBack(request: Request)

  /** A committed request, with the users just before. */
  datatype Change = Change(request: Request, before: Users)

  datatype State = State(
    users: Users,
    nextUser: UserId,
    lock: Option<TxId>,
    txs: map<TxId, Tx>,
    log: seq<Change>)

  datatype Action = Begin(t: TxId, request: Request) | Advance(t: TxId) | Abort(t: TxId)

  predicate IsAdmin(users: Users, u: UserId) {
    u in users && users[u].enabled && users[u].role == Admin
  }

  predicate SomeAdmin(users: Users) {
    exists u | u in users :: IsAdmin(users, u)
  }

  predicate NameTaken(users: Users, name: string) {
    exists u | u in users :: users[u].name == name
  }

  function Actor(r: Request): Option<UserId> {
    match r
    case Setup(_) => None
    case Create(actor, _, _) => Some(actor)
    case SetAccess(actor, _, _, _) => Some(actor)
  }

  function Goto(s: State, t: TxId, at: Tx): State {
    s.(txs := s.txs[t := at])
  }

  /** The lock goes with the end of the transaction that holds it. */
  function End(s: State, t: TxId, at: Tx): State {
    Goto(if s.lock == Some(t) then s.(lock := None) else s, t, at)
  }

  /** The check after the lock: no user at all for setup, an enabled administrator otherwise. */
  predicate Allowed(users: Users, r: Request) {
    match Actor(r)
    case None => users == map[]
    case Some(actor) => IsAdmin(users, actor)
  }

  /** The INSERT or UPDATE; None when it violates a constraint or hits no row. */
  function Write(users: Users, newId: UserId, r: Request): Option<Users> {
    match r
    case Setup(name) => if NameTaken(users, name) then None else Some(users[newId := User(name, Admin, true)])
    case Create(_, name, role) => if NameTaken(users, name) then None else Some(users[newId := User(name, role, true)])
    case SetAccess(_, target, role, enabled) =>
      if target !in users then None else Some(users[target := users[target].(role := role, enabled := enabled)])
  }

  /** One statement of the transaction. */
  function Statement(s: State, t: TxId): Option<State>
    requires t in s.txs
  {
    match s.txs[t]
    case Waiting(r) => if s.lock.None? then Some(Goto(s.(lock := Some(t)), t, Locked(r))) else None
    case Locked(r) => Some(if Allowed(s.users, r) then Goto(s, t, Authorized(r)) else End(s, t, RolledBack(r)))
    case Authorized(r) =>
      (match Write(s.users, s.nextUser, r)
       case None => Some(End(s, t, RolledBack(r)))
       case Some(users) => Some(Goto(s.(nextUser := s.nextUser + 1), t, Written(r, users))))
    case Written(r, users) =>
      // Only SetUserAccess counts the administrators that are left.
      Some(if r.SetAccess? && !SomeAdmin(users) then End(s, t, RolledBack(r)) else Goto(s, t, Counted(r, users)))
    case Counted(r, users) => Some(End(s.(users := users, log := s.log + [Change(r, s.users)]), t, Committed(r)))
    case _ => None
  }

  function Act(s: State, a: Action): Option<State> {
    match a
    case Begin(t, request) => if t in s.txs then None else Some(Goto(s, t, Waiting(request)))
    case Advance(t) => if t in s.txs then Statement(s, t) else None
    case Abort(t) => if t in s.txs && !s.txs[t].Committed? then Some(End(s, t, RolledBack(s.txs[t].request))) else None
  }

  ghost predicate Reaches(s: State, acts: seq<Action>, after: State)
    decreases |acts|
  {
    if acts == [] then s == after
    else match Act(s, acts[0])
      case None => false
      case Some(mid) => Reaches(mid, acts[1..], after)
  }

  const EMPTY := State(map[], 0, None, map[], [])

  predicate Inside(x: Tx) {
    x.Locked? || x.Authorized? || x.Written? || x.Counted?
  }

  /** The request turns one list of users into the other, with some identifier not taken. */
  ghost predicate Writes(users: Users, r: Request, after: Users) {
    exists id :: id !in users && Write(users, id, r) == Some(after)
  }

  /** What a transaction past the lock has seen still holds of the committed users. */
  ghost predicate TxInv(s: State, t: TxId)
    requires t in s.txs
  {
    && (Inside(s.txs[t]) ==> s.lock == Some(t))
    && match s.txs[t]
       case Authorized(r) => Allowed(s.users, r)
       case Written(r, users) => Allowed(s.users, r) && Writes(s.users, r, users) && users != map[]
         && (!r.SetAccess? ==> SomeAdmin(users))
       case Counted(r, users) => Allowed(s.users, r) && Writes(s.users, r, users) && SomeAdmin(users)
       case _ => true
  }

  ghost predicate Inv(s: State) {
    && (forall t | t in s.txs :: TxInv(s, t))
    && (forall u | u in s.users :: u < s.nextUser)
    && (forall t | t in s.txs && (s.txs[t].Written? || s.txs[t].Counted?) :: forall u | u in s.txs[t].users ::
      u < s.nextUser)
    && (s.log == [] <==> s.users == map[])
    && (s.users != map[] ==> SomeAdmin(s.users))
    && (forall i | 0 <= i < |s.log| :: Allowed(s.log[i].before, s.log[i].request))
    && (forall i | 0 < i < |s.log| :: s.log[i].before != map[])
    && (s.log != [] ==> s.log[0].before == map[])
  }

  lemma AdminSurvivesInsert(users: Users, u: UserId, user: User)
    requires u !in users && (SomeAdmin(users) || (user.enabled && user.role == Admin))
    ensures SomeAdmin(users[u := user])
  {
    var after := users[u := user];
    if SomeAdmin(users) {
      var v :| v in users && IsAdmin(users, v);
      assert IsAdmin(after, v);
    } else {
      assert IsAdmin(after, u);
    }
  }

  lemma WriteKeepsUsers(users: Users, newId: UserId, r: Request)
    requires Allowed(users, r) && newId !in users && Write(users, newId, r).Some?
    ensures Write(users, newId, r).value != map[]
    ensures !r.SetAccess? ==> SomeAdmin(Write(users, newId, r).value)
  {
    var after := Write(users, newId, r).value;
    match r
    case Setup(name) => AdminSurvivesInsert(users, newId, User(name, Admin, true));
    case Create(actor, name, role) =>
      assert SomeAdmin(users);
      AdminSurvivesInsert(users, newId, User(name, role, true));
    case SetAccess(_, target, _, _) => assert target in after;
  }

  lemma StatementKeepsTx(s: State, t: TxId, u: TxId)
    requires Inv(s) && t in s.txs && Statement(s, t).Some? && u in Statement(s, t).value.txs
    ensures TxInv(Statement(s, t).value, u)
  {
    assert TxInv(s, t) && TxInv(s, u);
    if u == t && s.txs[t].Authorized? && Write(s.users, s.nextUser, s.txs[t].request).Some? {
      WriteKeepsUsers(s.users, s.nextUser, s.txs[t].request);
    }
  }

  lemma StatementKeepsRest(s: State, t: TxId)
    requires Inv(s) && t in s.txs && Statement(s, t).Some?
    requires forall u | u in Statement(s, t).value.txs :: TxInv(Statement(s, t).value, u)
    ensures Inv(Statement(s, t).value)
  {
    var after := Statement(s, t).value;
    assert TxInv(s, t);
    if s.txs[t].Counted? {
      var change := Change(s.txs[t].request, s.users);
      assert after.log == s.log + [change];
      forall i | 0 <= i < |after.log|
        ensures Allowed(after.log[i].before, after.log[i].request) && (i > 0 ==> after.log[i].before != map[]) {
        if i < |s.log| { assert after.log[i] == s.log[i]; }
      }
    } else {
      assert after.users == s.users && after.log == s.log;
    }
  }

  lemma ActKeepsInv(s: State, a: Action)
    requires Inv(s) && Act(s, a).Some?
    ensures Inv(Act(s, a).value)
  {
    var after := Act(s, a).value;
    match a
    case Advance(t) =>
      forall u | u in after.txs ensures TxInv(after, u) { StatementKeepsTx(s, t, u); }
      StatementKeepsRest(s, t);
    case Abort(t) =>
      assert TxInv(s, t);
      forall u | u in after.txs ensures TxInv(after, u) { assert TxInv(s, u); }
    case Begin(t, _) =>
      forall u | u in after.txs ensures TxInv(after, u) { if u != t { assert TxInv(s, u); } }
  }

  lemma {:induction false} ReachableInv(s: State, acts: seq<Action>, after: State)
    requires Inv(s) && Reaches(s, acts, after)
    ensures Inv(after)
    decreases |acts|
  {
    if acts != [] {
      ActKeepsInv(s, acts[0]);
      ReachableInv(Act(s, acts[0]).value, acts[1..], after);
    }
  }

  /** Once anything was committed, every committed state has an enabled administrator. */
  lemma AlwaysAnAdministrator(acts: seq<Action>, s: State)
    requires Reaches(EMPTY, acts, s)
    ensures s.log != [] ==> SomeAdmin(s.users)
    ensures s.log == [] ==> s.users == map[]
  {
    ReachableInv(EMPTY, acts, s);
  }

  /** First-run setup commits at most once, and before anything else. */
  lemma SetupAtMostOnce(acts: seq<Action>, s: State, i: nat)
    requires Reaches(EMPTY, acts, s) && i < |s.log|
    ensures s.log[i].request.Setup? <==> i == 0
  {
    ReachableInv(EMPTY, acts, s);
    if i == 0 {
      assert Allowed(s.log[0].before, s.log[0].request) && s.log[0].before == map[];
    }
  }

  /** Every change of the committed users, at any step of any run, is one request whose actor was an
      enabled administrator just before, or the first-run setup; it leaves an administrator. */
  lemma ChangesAreAuthorized(acts: seq<Action>, s: State, a: Action)
    requires Reaches(EMPTY, acts, s) && Act(s, a).Some? && Act(s, a).value.users != s.users
    ensures a.Advance? && a.t in s.txs
    ensures var r, after := s.txs[a.t].request, Act(s, a).value.users;
      && (if Actor(r).Some? then IsAdmin(s.users, Actor(r).value) else s.users == map[])
      && Writes(s.users, r, after) && SomeAdmin(after)
  {
    ReachableInv(EMPTY, acts, s);
    assert TxInv(s, a.t);
  }

  /** What a request does to the users, one by one: it adds the user it names, with the role it gives
      and enabled, or sets role and state of its target, and leaves everybody else alone. */
  lemma ChangeExactly(before: Users, r: Request, after: Users, u: UserId)
    requires Writes(before, r, after)
    ensures match r
      case SetAccess(_, target, role, enabled) =>
        && target in before && before.Keys == after.Keys
        && (u in before ==> after[u] == if u == target then User(before[u].name, role, enabled) else before[u])
      case Create(_, name, role) => Added(before, after, User(name, role, true))
      case Setup(name) => Added(before, after, User(name, Admin, true))
  {
    var id :| id !in before && Write(before, id, r) == Some(after);
    if !r.SetAccess? {
      assert after.Keys == before.Keys + {id};
      assert after[id].name == r.name;
    }
  }

  /** One user more, with a name nobody has. */
  ghost predicate Added(before: Users, after: Users, user: User) {
    && (exists id :: id !in before && after.Keys == before.Keys + {id} && after[id] == user)
    && (forall u | u in before :: u in after && after[u] == before[u] && before[u].name != user.name)
  }

  /** Nobody becomes an enabled administrator but by a request that says so for that very user. */
  lemma AdminsAreMade(acts: seq<Action>, s: State, a: Action, u: UserId)
    requires Reaches(EMPTY, acts, s) && Act(s, a).Some?
    requires !IsAdmin(s.users, u) && IsAdmin(Act(s, a).value.users, u)
    ensures a.Advance? && a.t in s.txs
    ensures match s.txs[a.t].request
      case Setup(name) => u !in s.users && Act(s, a).value.users[u].name == name
      case Create(_, name, role) => role == Admin && u !in s.users && Act(s, a).value.users[u].name == name
      case SetAccess(_, target, role, enabled) => target == u && role == Admin && enabled
  {
    ChangesAreAuthorized(acts, s, a);
    ChangeExactly(s.users, s.txs[a.t].request, Act(s, a).value.users, u);
  }

  /** The table refuses a name that is taken, and access for a user that is not there; no more. */
  lemma WritableExactly(users: Users, newId: UserId, r: Request)
    ensures Write(users, newId, r).Some? <==>
      if r.SetAccess? then r.target in users else forall u | u in users :: users[u].name != r.name
  {
  }

  /** The five statements of a transaction that meets no other. */
  function Alone(t: TxId, r: Request): seq<Action> {
    [Begin(t, r), Advance(t), Advance(t), Advance(t), Advance(t), Advance(t)]
  }

  /** Run alone, a request that is allowed, breaks no constraint and, if it sets access, leaves an
      administrator does commit, and releases the lock. */
  lemma CommitsAlone(s: State, t: TxId, r: Request, users: Users) returns (after: State)
    requires s.lock == None && t !in s.txs && Write(s.users, s.nextUser, r) == Some(users)
    requires if r.Setup? then s.users == map[]
             else r.actor in s.users && s.users[r.actor].enabled && s.users[r.actor].role == Admin
    requires r.SetAccess? ==> SomeAdmin(users)
    ensures Reaches(s, Alone(t, r), after) && after.users == users && after.lock == None
    ensures t in after.txs && after.txs[t] == Committed(r) && after.log == s.log + [Change(r, s.users)]
  {
    var acts := Alone(t, r);
    var s1 := Act(s, acts[0]).value;
    var s2 := Act(s1, acts[1]).value;
    var s3 := Act(s2, acts[2]).value;
    var s4 := Act(s3, acts[3]).value;
    var s5 := Act(s4, acts[4]).value;
    after := Act(s5, acts[5]).value;
    assert acts[1..][1..] == acts[2..] && acts[2..][1..] == acts[3..] && acts[3..][1..] == acts[4..];
    assert acts[4..][1..] == acts[5..] && acts[5..][1..] == [];
    assert Reaches(after, [], after);
    assert Reaches(s5, acts[5..], after);
    assert Reaches(s4, acts[4..], after);
    assert Reaches(s3, acts[3..], after);
    assert Reaches(s2, acts[2..], after);
    assert Reaches(s1, acts[1..], after);
  }

  /** A transaction may be given up at any point before its commit: it leaves the users as they are
      and frees the lock if it holds it. */
  lemma AbortLeavesUsers(s: State, t: TxId)
    requires t in s.txs && !s.txs[t].Committed?
    ensures Act(s, Abort(t)) == Some(s.(lock := if s.lock == Some(t) then None else s.lock,
                                         txs := s.txs[t := RolledBack(s.txs[t].request)]))
  {
  }

  /** A step commits at most one change, and logs it with the users it replaced. */
  lemma CommitsAreLogged(s: State, a: Action)
    requires Inv(s) && Act(s, a).Some?
    ensures var after := Act(s, a).value;
      if after.log == s.log then after.users == s.users
      else
        && a.Advance? && s.txs[a.t].Counted?
        && Writes(s.users, s.txs[a.t].request, after.users)
        && after.log == s.log + [Change(s.txs[a.t].request, s.users)]
  {
    if a.Advance? && s.txs[a.t].Counted? {
      assert TxInv(s, a.t);
      assert |Act(s, a).value.log| == |s.log| + 1;
    }
  }

  /** Carrying out the logged requests one after the other, each on the users the one before left,
      ends with these users. */
  ghost predicate Replays(log: seq<Change>, users: Users)
    decreases |log|
  {
    if log == [] then users == map[]
    else
      var last := log[|log| - 1];
      Replays(log[..|log| - 1], last.before) && Writes(last.before, last.request, users)
  }

  lemma {:induction false} LogKeepsReplaying(s: State, acts: seq<Action>, after: State)
    requires Inv(s) && Replays(s.log, s.users) && Reaches(s, acts, after)
    ensures Replays(after.log, after.users)
    decreases |acts|
  {
    if acts != [] {
      var mid := Act(s, acts[0]).value;
      CommitsAreLogged(s, acts[0]);
      ActKeepsInv(s, acts[0]);
      if mid.log != s.log {
        assert mid.log[..|mid.log| - 1] == s.log;
      }
      LogKeepsReplaying(mid, acts[1..], after);
    }
  }

  /** However the transactions interleave, the committed users are those a serial execution of the
      committed requests gives, in the order of their commits. */
  lemma LogReplays(acts: seq<Action>, s: State)
    requires Reaches(EMPTY, acts, s)
    ensures Replays(s.log, s.users)
    ensures forall i | 0 <= i < |s.log| :: Allowed(s.log[i].before, s.log[i].request)
  {
    LogKeepsReplaying(EMPTY, acts, s);
    ReachableInv(EMPTY, acts, s);
  }

  /** At most one transaction is past the lock, so none acts on users another has changed. */
  lemma OneInside(acts: seq<Action>, s: State, t: TxId, u: TxId)
    requires Reaches(EMPTY, acts, s) && t in s.txs && u in s.txs && Inside(s.txs[t]) && Inside(s.txs[u])
    ensures t == u
  {
    ReachableInv(EMPTY, acts, s);
    assert TxInv(s, t) && TxInv(s, u);
  }
}
