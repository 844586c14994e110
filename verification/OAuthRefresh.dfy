/** Concurrent Manager.Resolve: refreshes of one connection's access token, one at a time
    (internal/oauth/oauth.go).

    Threads, the token endpoint and the clock take steps; every interleaving is a sequence of
    actions.  No other code writes credentials meanwhile.  Times are nanoseconds. */
module OAuthRefresh {
  import opened Prelude

  type ThreadId = nat
  type ConnectionId = nat

  const SECOND := 1_000_000_000
  const MINUTE := 60 * SECOND
  const WORD := 0x1_0000_0000_0000_0000

  /** The fields of a stored credential that Resolve reads or writes; "" is absent. */
  datatype Credential = Credential(access: string, refresh: string, expires: Option<int>)

  datatype Response = Response(access: string, refresh: string, expiresIn: int)

  datatype Thread =
    | Called(connection: ConnectionId, seen: Credential)
    | Blocked(connection: ConnectionId)
    | Locked(connection: ConnectionId)
    | Exchanging(connection: ConnectionId, credential: Credential)
    | Refreshed(connection: ConnectionId, credential: Credential)
    | Returned(connection: ConnectionId, credential: Credential, at: int)
    | Failed(connection: ConnectionId)

  /** A successful exchange: the refresh token presented and the tokens returned. */
  datatype Exchange = Exchange(connection: ConnectionId, presented: string, access: string, returned: string)

  datatype State = State(
    now: int,
    stored: map<ConnectionId, Credential>,
    locks: map<ConnectionId, ThreadId>,
    threads: map<ThreadId, Thread>,
    log: seq<Exchange>)

  datatype Action =
    | Call(t: ThreadId, connection: ConnectionId, seen: Credential)
    | Begin(t: ThreadId)
    | Lock(t: ThreadId)
    | Load(t: ThreadId, found: bool)
    | Answer(t: ThreadId, response: Response)
    | Refuse(t: ThreadId)
    | Save(t: ThreadId, ok: bool)
    | Pass(time: nat)

  predicate Fresh(c: Credential, now: int) {
    c.access != "" && (c.expires.None? || c.expires.value > now + MINUTE)
  }

  /** A multiplication of 64-bit durations wraps around. */
  function Wrap(x: int): int {
    (x + WORD / 2) % WORD - WORD / 2
  }

  function Expiry(expiresIn: int, now: int): Option<int> {
    if expiresIn <= 0 then None else Some(now + Wrap(expiresIn * SECOND))
  }

  function After(c: Credential, r: Response, now: int): Credential {
    Credential(r.access, if r.refresh != "" then r.refresh else c.refresh, Expiry(r.expiresIn, now))
  }

  function Goto(s: State, t: ThreadId, at: Thread): State {
    s.(threads := s.threads[t := at])
  }

  /** The deferred unlock, then return. */
  function Finish(s: State, t: ThreadId, at: Thread): State {
    Goto(s.(locks := s.locks - {at.connection}), t, at)
  }

  function Act(s: State, a: Action): Option<State> {
    match a
    case Pass(time) => Some(s.(now := s.now + time))
    case Call(t, connection, seen) => if t in s.threads then None else Some(Goto(s, t, Called(connection, seen)))
    case Begin(t) =>
      if t in s.threads && s.threads[t].Called? then
        var p := s.threads[t];
        Some(Goto(s, t, if Fresh(p.seen, s.now) then Returned(p.connection, p.seen, s.now) else Blocked(p.connection)))
      else None
    case Lock(t) =>
      if t in s.threads && s.threads[t].Blocked? && s.threads[t].connection !in s.locks then
        var c := s.threads[t].connection;
        Some(Goto(s.(locks := s.locks[c := t]), t, Locked(c)))
      else None
    case Load(t, found) =>
      if t in s.threads && s.threads[t].Locked? then
        var c := s.threads[t].connection;
        if !found || c !in s.stored then Some(Finish(s, t, Failed(c)))
        else
          var latest := s.stored[c];
          if Fresh(latest, s.now) then Some(Finish(s, t, Returned(c, latest, s.now)))
          else if latest.refresh == "" then Some(Finish(s, t, Failed(c)))
          else Some(Goto(s, t, Exchanging(c, latest)))
      else None
    case Answer(t, r) =>
      if t in s.threads && s.threads[t].Exchanging? && r.access != "" then
        var p := s.threads[t];
        Some(Goto(s.(log := s.log + [Exchange(p.connection, p.credential.refresh, r.access, r.refresh)]), t,
                  Refreshed(p.connection, After(p.credential, r, s.now))))
      else None
    case Refuse(t) =>
      if t in s.threads && s.threads[t].Exchanging? then Some(Finish(s, t, Failed(s.threads[t].connection))) else None
    case Save(t, ok) =>
      if t in s.threads && s.threads[t].Refreshed? then
        var p := s.threads[t];
        if ok then Some(Finish(s.(stored := s.stored[p.connection := p.credential]), t,
          Returned(p.connection, p.credential, s.now)))
        else Some(Finish(s, t, Failed(p.connection)))
      else None
  }

  ghost predicate Reaches(s: State, acts: seq<Action>, after: State)
    decreases |acts|
  {
    if acts == [] then s == after
    else match Act(s, acts[0])
      case None => false
      case Some(mid) => Reaches(mid, acts[1..], after)
  }

  // ---- Serialization ----------------------------------------------------------------

  predicate Inside(p: Thread) {
    p.Locked? || p.Exchanging? || p.Refreshed?
  }

  /** The mutex of a connection is held by the one thread past Lock; while it works, the stored
      credential is the one it loaded. */
  ghost predicate Serialized(s: State) {
    && (forall t | t in s.threads && Inside(s.threads[t]) ::
      s.threads[t].connection in s.locks && s.locks[s.threads[t].connection] == t)
    && (forall t | t in s.threads && s.threads[t].Exchanging? ::
          s.threads[t].connection in s.stored && s.stored[s.threads[t].connection] == s.threads[t].credential)
  }

  lemma ActKeepsSerialized(s: State, a: Action)
    requires Serialized(s) && Act(s, a).Some?
    ensures Serialized(Act(s, a).value)
  {
  }

  lemma {:induction false} ReachableSerialized(s: State, acts: seq<Action>, after: State)
    requires Serialized(s) && Reaches(s, acts, after)
    ensures Serialized(after)
    decreases |acts|
  {
    if acts != [] {
      ActKeepsSerialized(s, acts[0]);
      ReachableSerialized(Act(s, acts[0]).value, acts[1..], after);
    }
  }

  /** The stored credential of a connection changes in one way only: the thread in its mutex
      saves the result of a successful exchange.  A failed exchange changes nothing. */
  lemma StoredChangesOnlyBySave(s: State, a: Action, c: ConnectionId)
    requires Serialized(s) && Act(s, a).Some? && c in s.stored
    requires c !in Act(s, a).value.stored || Act(s, a).value.stored[c] != s.stored[c]
    ensures a.Save? && a.ok && s.threads[a.t].Refreshed? && s.threads[a.t].connection == c && s.locks[c] == a.t
    ensures Act(s, a).value.stored == s.stored[c := s.threads[a.t].credential]
  {
  }

  // ---- No refresh token is spent twice ----------------------------------------------

  predicate Spent(log: seq<Exchange>, c: ConnectionId, token: string) {
    exists i | 0 <= i < |log| :: log[i].connection == c && log[i].presented == token
  }

  ghost predicate NoReplay(log: seq<Exchange>) {
    forall i, j | 0 <= i < j < |log| && log[i].connection == log[j].connection :: log[i].presented != log[j].presented
  }

  /** What the property asks of the surroundings, at one step: a successful exchange returns a
      refresh token never presented before, and a save of a refreshed credential succeeds. */
  predicate Rotating(s: State, a: Action) {
    match a
    case Answer(t, r) =>
      t in s.threads && s.threads[t].Exchanging? ==>
        r.refresh != "" && r.refresh != s.threads[t].credential.refresh
          && !Spent(s.log, s.threads[t].connection, r.refresh)
    case Save(_, ok) => ok
    case _ => true
  }

  ghost predicate RotatingRun(s: State, acts: seq<Action>)
    decreases |acts|
  {
    acts == [] || (Rotating(s, acts[0]) && (Act(s, acts[0]).Some? ==> RotatingRun(Act(s, acts[0]).value, acts[1..])))
  }

  ghost predicate ReplayInv(s: State) {
    && Serialized(s) && NoReplay(s.log)
    && (forall c | c in s.stored && !(c in s.locks && s.locks[c] in s.threads && s.threads[s.locks[c]].Refreshed?) ::
          !Spent(s.log, c, s.stored[c].refresh))
    && (forall t | t in s.threads && s.threads[t].Refreshed? ::
      !Spent(s.log, s.threads[t].connection, s.threads[t].credential.refresh))
    && (forall c | c in s.locks ::
      s.locks[c] in s.threads && Inside(s.threads[s.locks[c]]) && s.threads[s.locks[c]].connection == c)
  }

  lemma AnswerKeepsReplayInv(s: State, a: Action)
    requires ReplayInv(s) && Act(s, a).Some? && a.Answer? && Rotating(s, a)
    ensures ReplayInv(Act(s, a).value)
  {
    var after := Act(s, a).value;
    var p := s.threads[a.t];
    var e := Exchange(p.connection, p.credential.refresh, a.response.access, a.response.refresh);
    assert after.log == s.log + [e];
    assert !Spent(s.log, p.connection, p.credential.refresh);
    forall c, token ensures Spent(after.log, c, token) <==>
      Spent(s.log, c, token) || (c == e.connection && token == e.presented) {
      if Spent(s.log, c, token) {
        var i :| 0 <= i < |s.log| && s.log[i].connection == c && s.log[i].presented == token;
        assert after.log[i] == s.log[i];
      }
      if c == e.connection && token == e.presented {
        assert after.log[|s.log|] == e;
      }
    }
    ActKeepsSerialized(s, a);
  }

  lemma SaveKeepsReplayInv(s: State, a: Action)
    requires ReplayInv(s) && Act(s, a).Some? && a.Save? && a.ok
    ensures ReplayInv(Act(s, a).value)
  {
    var after, c := Act(s, a).value, s.threads[a.t].connection;
    assert after.log == s.log && after.locks == s.locks - {c};
    forall u | u in after.threads && Inside(after.threads[u])
      ensures after.threads[u] == s.threads[u] && after.threads[u].connection != c {}
    ActKeepsSerialized(s, a);
  }

  lemma LockKeepsReplayInv(s: State, a: Action)
    requires ReplayInv(s) && Act(s, a).Some? && a.Lock?
    ensures ReplayInv(Act(s, a).value)
  {
    assert Act(s, a).value.log == s.log && Act(s, a).value.stored == s.stored;
    ActKeepsSerialized(s, a);
  }

  /** A thread that holds the mutex and has nothing to save leaves. */
  lemma FinishKeepsReplayInv(s: State, t: ThreadId, at: Thread)
    requires ReplayInv(s) && t in s.threads && Inside(s.threads[t]) && !s.threads[t].Refreshed?
    requires (at.Returned? || at.Failed?) && at.connection == s.threads[t].connection
    ensures ReplayInv(Finish(s, t, at))
  {
    var after, c := Finish(s, t, at), at.connection;
    assert s.locks[c] == t;
    assert forall u | u in after.threads && u != t :: after.threads[u] == s.threads[u];
    forall d | d in s.locks && d != c ensures after.locks[d] == s.locks[d] && s.locks[d] != t {}
  }

  lemma LeaveKeepsReplayInv(s: State, a: Action)
    requires ReplayInv(s) && Act(s, a).Some? && (a.Load? || a.Refuse?)
    ensures ReplayInv(Act(s, a).value)
  {
    var after := Act(s, a).value;
    if after.threads[a.t].Exchanging? {
      var c := s.threads[a.t].connection;
      assert s.locks[c] == a.t && after == Goto(s, a.t, Exchanging(c, s.stored[c]));
      ActKeepsSerialized(s, a);
    } else {
      FinishKeepsReplayInv(s, a.t, after.threads[a.t]);
    }
  }

  lemma OutsideKeepsReplayInv(s: State, a: Action)
    requires ReplayInv(s) && Act(s, a).Some? && (a.Call? || a.Begin? || a.Pass?)
    ensures ReplayInv(Act(s, a).value)
  {
    var after := Act(s, a).value;
    assert after.log == s.log && after.stored == s.stored && after.locks == s.locks;
    ActKeepsSerialized(s, a);
  }

  lemma ActKeepsReplayInv(s: State, a: Action)
    requires ReplayInv(s) && Act(s, a).Some? && Rotating(s, a)
    ensures ReplayInv(Act(s, a).value)
  {
    if a.Answer? {
      AnswerKeepsReplayInv(s, a);
    } else if a.Save? {
      SaveKeepsReplayInv(s, a);
    } else if a.Lock? {
      LockKeepsReplayInv(s, a);
    } else if a.Load? || a.Refuse? {
      LeaveKeepsReplayInv(s, a);
    } else {
      OutsideKeepsReplayInv(s, a);
    }
  }

  lemma {:induction false} ReachableReplayInv(s: State, acts: seq<Action>, after: State)
    requires ReplayInv(s) && RotatingRun(s, acts) && Reaches(s, acts, after)
    ensures ReplayInv(after)
    decreases |acts|
  {
    if acts != [] {
      ActKeepsReplayInv(s, acts[0]);
      ReachableReplayInv(Act(s, acts[0]).value, acts[1..], after);
    }
  }

  /** Whatever was stored at the start, and however calls interleave, two successful exchanges
      of one connection never present the same refresh token. */
  lemma NeverSpentTwice(stored: map<ConnectionId, Credential>, now: int, acts: seq<Action>, s: State)
    requires var start := State(now, stored, map[], map[], []); RotatingRun(start, acts) && Reaches(start, acts, s)
    ensures NoReplay(s.log)
  {
    ReachableReplayInv(State(now, stored, map[], map[], []), acts, s);
  }

  /** The step that would break it, exactly: from a state where nothing was spent twice, a
      successful exchange leaves the credential to be stored unspent when and only when the
      endpoint returned a token, other than the one presented, that was not spent before. */
  lemma UnspentExactly(s: State, t: ThreadId, r: Response)
    requires ReplayInv(s) && Act(s, Answer(t, r)).Some?
    ensures var after := Act(s, Answer(t, r)).value;
      !Spent(after.log, after.threads[t].connection, after.threads[t].credential.refresh) <==> Rotating(s, Answer(t, r))
  {
    var after := Act(s, Answer(t, r)).value;
    var p := s.threads[t];
    assert after.log[|s.log|].presented == p.credential.refresh;
    if Spent(s.log, p.connection, r.refresh) {
      var i :| 0 <= i < |s.log| && s.log[i].connection == p.connection && s.log[i].presented == r.refresh;
      assert after.log[i] == s.log[i];
    }
  }

  /** A save that fails after a successful exchange leaves the spent token in the store. */
  lemma FailedSaveKeepsSpentToken(s: State, t: ThreadId, r: Response)
    requires Serialized(s) && Act(s, Answer(t, r)).Some?
    ensures var c := s.threads[t].connection;
      var mid := Act(s, Answer(t, r)).value;
      var after := Act(mid, Save(t, false)).value;
      c in after.stored && after.stored[c] == s.stored[c] && Spent(after.log, c, after.stored[c].refresh)
  {
    var mid := Act(s, Answer(t, r)).value;
    assert mid.log[|s.log|].presented == s.stored[s.threads[t].connection].refresh;
  }

  /** So it is with the store: after an exchange and its save, the stored refresh token is unspent
      exactly when the endpoint returned a new one and the save worked. */
  lemma StoreUnspentExactly(s: State, t: ThreadId, r: Response, ok: bool)
    requires ReplayInv(s) && Act(s, Answer(t, r)).Some?
    ensures var c := s.threads[t].connection;
      var after := Act(Act(s, Answer(t, r)).value, Save(t, ok)).value;
      c in after.stored && (!Spent(after.log, c, after.stored[c].refresh) <==> ok && Rotating(s, Answer(t, r)))
  {
    UnspentExactly(s, t, r);
    FailedSaveKeepsSpentToken(s, t, r);
  }

  // ---- Where credentials come from --------------------------------------------------

  /** An exchange of the connection returned this access token. */
  predicate Issued(log: seq<Exchange>, c: ConnectionId, access: string) {
    exists i | 0 <= i < |log| :: log[i].connection == c && log[i].access == access
  }

  /** A credential of the connection: stored at the start, or with an access token issued since. */
  predicate Known(s: State, stored: map<ConnectionId, Credential>, c: ConnectionId, credential: Credential) {
    (c in stored && credential == stored[c]) || Issued(s.log, c, credential.access)
  }

  ghost predicate ThreadOrigin(s: State, stored: map<ConnectionId, Credential>, all: seq<Action>, t: ThreadId)
    requires t in s.threads
  {
    match s.threads[t]
    case Called(c, seen) => Call(t, c, seen) in all
    case Exchanging(c, credential) =>
      && c in s.stored && credential == s.stored[c] && !Fresh(credential, s.now) && credential.refresh != ""
      && Known(s, stored, c, credential)
    case Refreshed(c, credential) => Issued(s.log, c, credential.access)
    case Returned(c, credential, at) =>
      && at <= s.now
      && (Issued(s.log, c, credential.access)
          || (Fresh(credential, at) && (Known(s, stored, c, credential) || Call(t, c, credential) in all)))
    case _ => true
  }

  /** The invariant of a run of actions out of `all` that began with `stored`. */
  ghost predicate Origin(s: State, stored: map<ConnectionId, Credential>, all: seq<Action>) {
    && Serialized(s)
    && (forall c | c in s.stored :: Known(s, stored, c, s.stored[c]))
    && (forall t | t in s.threads :: ThreadOrigin(s, stored, all, t))
  }

  lemma IssuedStays(log: seq<Exchange>, e: Exchange, c: ConnectionId, access: string)
    ensures Issued(log + [e], c, access) <==> Issued(log, c, access) || (e.connection == c && e.access == access)
  {
    var more := log + [e];
    assert more[|log|] == e && forall i | 0 <= i < |log| :: more[i] == log[i];
  }

  lemma LogGrows(s: State, a: Action, c: ConnectionId, access: string)
    requires Act(s, a).Some? && Issued(s.log, c, access)
    ensures Issued(Act(s, a).value.log, c, access)
  {
    if a.Answer? {
      IssuedStays(s.log, Act(s, a).value.log[|s.log|], c, access);
    }
  }

  lemma ActKeepsStored(s: State, a: Action, stored: map<ConnectionId, Credential>, all: seq<Action>, c: ConnectionId)
    requires Origin(s, stored, all) && Act(s, a).Some? && c in Act(s, a).value.stored
    ensures Known(Act(s, a).value, stored, c, Act(s, a).value.stored[c])
  {
    var after := Act(s, a).value;
    if c in s.stored && after.stored[c] == s.stored[c] {
      if Issued(s.log, c, s.stored[c].access) {
        LogGrows(s, a, c, s.stored[c].access);
      }
    } else {
      assert a.Save? && ThreadOrigin(s, stored, all, a.t);
    }
  }

  /** A thread that does not move keeps its origin. */
  lemma OtherKeepsOrigin(s: State, a: Action, stored: map<ConnectionId, Credential>, all: seq<Action>, u: ThreadId)
    requires Origin(s, stored, all) && Act(s, a).Some? && u in s.threads && (a.Pass? || a.t != u)
    ensures u in Act(s, a).value.threads && ThreadOrigin(Act(s, a).value, stored, all, u)
  {
    var after, p := Act(s, a).value, s.threads[u];
    assert ThreadOrigin(s, stored, all, u) && after.threads[u] == p && s.now <= after.now;
    if p.Exchanging? || p.Refreshed? || p.Returned? {
      if Issued(s.log, p.connection, p.credential.access) {
        LogGrows(s, a, p.connection, p.credential.access);
      }
    }
  }

  lemma ActorKeepsOrigin(s: State, a: Action, stored: map<ConnectionId, Credential>, all: seq<Action>)
    requires Origin(s, stored, all) && Act(s, a).Some? && !a.Pass? && a in all
    ensures a.t in Act(s, a).value.threads && ThreadOrigin(Act(s, a).value, stored, all, a.t)
  {
    var after := Act(s, a).value;
    assert a.t in s.threads ==> ThreadOrigin(s, stored, all, a.t);
    if a.Answer? {
      var e := after.log[|s.log|];
      assert after.log == s.log + [e];
      IssuedStays(s.log, e, e.connection, e.access);
    }
  }

  lemma {:induction false} ReachableOrigin(s: State, acts: seq<Action>, after: State,
                                           stored: map<ConnectionId, Credential>, all: seq<Action>)
    requires Origin(s, stored, all) && Reaches(s, acts, after) && forall i | 0 <= i < |acts| :: acts[i] in all
    ensures Origin(after, stored, all)
    decreases |acts|
  {
    if acts != [] {
      var mid := Act(s, acts[0]).value;
      ActKeepsSerialized(s, acts[0]);
      forall c | c in mid.stored ensures Known(mid, stored, c, mid.stored[c]) {
        ActKeepsStored(s, acts[0], stored, all, c);
      }
      forall t | t in mid.threads ensures ThreadOrigin(mid, stored, all, t) {
        if acts[0].Pass? || acts[0].t != t {
          OtherKeepsOrigin(s, acts[0], stored, all, t);
        } else {
          ActorKeepsOrigin(s, acts[0], stored, all);
        }
      }
      ReachableOrigin(mid, acts[1..], after, stored, all);
    }
  }

  /** Over every interleaving: what is stored was stored at the start or carries an access token some
      exchange of that connection returned.  What a call returns does too, unless it is still fresh
      and stored at the start or passed in by that very call.  And a refresh goes out only for a
      stored credential that is not fresh, with its refresh token. */
  lemma CredentialsHaveOrigin(stored: map<ConnectionId, Credential>, now: int, acts: seq<Action>, s: State)
    requires Reaches(State(now, stored, map[], map[], []), acts, s)
    ensures forall c | c in s.stored ::
      (c in stored && s.stored[c] == stored[c]) || Issued(s.log, c, s.stored[c].access)
    ensures forall t | t in s.threads && s.threads[t].Returned? ::
      var p := s.threads[t];
      || Issued(s.log, p.connection, p.credential.access)
      || (Fresh(p.credential, p.at)
          && ((p.connection in stored && p.credential == stored[p.connection])
            || Call(t, p.connection, p.credential) in acts))
    ensures forall t | t in s.threads && s.threads[t].Exchanging? ::
      var p := s.threads[t];
      && p.connection in s.stored && p.credential == s.stored[p.connection]
      && !Fresh(p.credential, s.now) && p.credential.refresh != ""
  {
    ReachableOrigin(State(now, stored, map[], map[], []), acts, s, stored, acts);
    forall t | t in s.threads ensures ThreadOrigin(s, stored, acts, t) {
    }
  }

  /** A refresh stores and returns the tokens the endpoint answered with, and its own refresh token
      when the answer has none. */
  lemma AnswerIsStored(s: State, t: ThreadId, r: Response)
    requires Serialized(s) && Act(s, Answer(t, r)).Some?
    ensures var was := s.threads[t].credential;
      var c, saved := s.threads[t].connection, Act(Act(s, Answer(t, r)).value, Save(t, true)).value;
      && saved.threads[t].Returned? && saved.threads[t].connection == c
      && c in saved.stored && saved.stored[c] == saved.threads[t].credential
      && saved.stored[c].access == r.access
      && saved.stored[c].refresh == (if r.refresh == "" then was.refresh else r.refresh)
      && c !in saved.locks
  {
  }

  /** A call with a fresh credential returns it at once, whoever holds the mutex; one that finds a
      fresh credential in the store returns that and leaves the mutex. */
  lemma FreshIsReturned(s: State, t: ThreadId)
    requires t in s.threads
    ensures s.threads[t].Called? && Fresh(s.threads[t].seen, s.now) ==>
      Act(s, Begin(t)) == Some(Goto(s, t, Returned(s.threads[t].connection, s.threads[t].seen, s.now)))
    ensures
      var c := s.threads[t].connection;
      s.threads[t].Locked? && c in s.stored && Fresh(s.stored[c], s.now) ==>
        Act(s, Load(t, true)) == Some(Goto(s.(locks := s.locks - {c}), t, Returned(c, s.stored[c], s.now)))
  {
  }

  /** An exchange may always fail, and so may a save: the call fails, the mutex is free, and the store
      is as before. */
  lemma FailureReleases(s: State, t: ThreadId)
    requires t in s.threads && (s.threads[t].Exchanging? || s.threads[t].Refreshed?)
    ensures var c := s.threads[t].connection;
      Act(s, if s.threads[t].Exchanging? then Refuse(t) else Save(t, false))
      == Some(s.(locks := s.locks - {c}, threads := s.threads[t := Failed(c)]))
  {
  }

  /** A call that meets no other and an endpoint that answers does refresh a stale credential. */
  lemma ResolveRefreshes(s: State, t: ThreadId, c: ConnectionId, seen: Credential, r: Response)
    returns (acts: seq<Action>)
    requires Serialized(s) && t !in s.threads && c !in s.locks && c in s.stored && r.access != ""
    requires !Fresh(seen, s.now) && !Fresh(s.stored[c], s.now) && s.stored[c].refresh != ""
    ensures exists after :: Reaches(s, acts, after) && t in after.threads && after.threads[t].Returned?
              && after.threads[t].credential.access == r.access
              && c in after.stored && after.stored[c] == after.threads[t].credential && after.locks == s.locks
  {
    var s1 := Goto(s, t, Called(c, seen));
    var s2 := Goto(s1, t, Blocked(c));
    var s3 := Goto(s2.(locks := s.locks[c := t]), t, Locked(c));
    var s4 := Goto(s3, t, Exchanging(c, s.stored[c]));
    var s5 := Act(s4, Answer(t, r)).value;
    var s6 := Act(s5, Save(t, true)).value;
    acts := [Call(t, c, seen), Begin(t), Lock(t), Load(t, true), Answer(t, r), Save(t, true)];
    SixSteps(s, acts, s1, s2, s3, s4, s5, s6);
    assert s6.locks == s.locks;
  }

  lemma SixSteps(s: State, acts: seq<Action>, s1: State, s2: State, s3: State, s4: State, s5: State, s6: State)
    requires |acts| == 6 && Act(s, acts[0]) == Some(s1) && Act(s1, acts[1]) == Some(s2) && Act(s2, acts[2]) == Some(s3)
    requires Act(s3, acts[3]) == Some(s4) && Act(s4, acts[4]) == Some(s5) && Act(s5, acts[5]) == Some(s6)
    ensures Reaches(s, acts, s6)
  {
    assert acts[1..][1..] == acts[2..] && acts[2..][1..] == acts[3..] && acts[3..][1..] == acts[4..];
    assert acts[4..][1..] == acts[5..] && acts[5..][1..] == [];
    assert Reaches(s6, [], s6);
    assert Reaches(s5, acts[5..], s6);
    assert Reaches(s4, acts[4..], s6);
    assert Reaches(s3, acts[3..], s6);
    assert Reaches(s2, acts[2..], s6);
    assert Reaches(s1, acts[1..], s6);
  }

  // ---- Freshness of what is returned ------------------------------------------------

  /** A refreshed credential, whose save took `delay`, is fresh on return exactly when the endpoint stated no lifetime
      or one whose 64-bit duration, wrapped around, exceeds a minute and that delay. */
  lemma RefreshedIsFreshExactly(s: State, t: ThreadId, r: Response, delay: nat)
    requires Act(s, Answer(t, r)).Some?
    ensures var saved := Act(Act(Act(s, Answer(t, r)).value, Pass(delay)).value, Save(t, true)).value;
      && saved.threads[t].Returned?
      && (Fresh(saved.threads[t].credential, saved.threads[t].at) <==>
        r.expiresIn <= 0 || Wrap(r.expiresIn * SECOND) > MINUTE + delay)
  {
  }

  /** A stated lifetime of ten thousand million seconds wraps to the past. */
  lemma HugeLifetimeIsStale(c: Credential, access: string, now: int)
    requires access != ""
    ensures !Fresh(After(c, Response(access, "", 10_000_000_000), now), now)
  {
    assert Wrap(10_000_000_000 * SECOND) == -8446744073709551616;
  }
}
