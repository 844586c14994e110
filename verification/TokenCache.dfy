/** Concurrent Tokens.Resolve: a bounded cache of client-credentials tokens with one exchange
    at a time per entry (internal/gateway/auth.go).

    Each goroutine is a thread with a program counter.  Times are nanoseconds.  `Act` gives the
    next state for one step of one thread, of the token endpoint or of the clock; every
    interleaving is a sequence of such steps. */
module TokenCache {
  import opened Prelude
  import opened Bytes

  type ThreadId = nat
  type Ref = nat

  const SECOND := 1_000_000_000
  const CAPACITY := 256
  const TIMEOUT := 20 * SECOND
  const LONGEST := 86400
  const MOST_SKEW := 30 * SECOND

  // ---- Cache keys -------------------------------------------------------------------

  /** The bytes whose SHA-256 digest is the cache key (the digest is taken as injective). */
  function KeyBytes(options: seq<Byte>, secret: seq<Byte>): seq<Byte> {
    options + [0] + secret
  }

  /** The marshalled options hold no zero byte, so the key determines options and secret. */
  lemma KeyBytesInjective(o1: seq<Byte>, s1: seq<Byte>, o2: seq<Byte>, s2: seq<Byte>)
    requires 0 !in o1 && 0 !in o2 && KeyBytes(o1, s1) == KeyBytes(o2, s2)
    ensures o1 == o2 && s1 == s2
  {
    KeyBytesShape(o1, s1);
    KeyBytesShape(o2, s2);
    assert KeyBytes(o1, s1)[..|o1|] == o1 && KeyBytes(o2, s2)[..|o2|] == o2;
    assert KeyBytes(o1, s1)[|o1| + 1..] == s1 && KeyBytes(o2, s2)[|o2| + 1..] == s2;
  }

  lemma KeyBytesShape(o: seq<Byte>, s: seq<Byte>)
    requires 0 !in o
    ensures KeyBytes(o, s)[|o|] == 0 && forall i | 0 <= i < |o| :: KeyBytes(o, s)[i] != 0
  {
    assert forall i | 0 <= i < |o| :: KeyBytes(o, s)[i] == o[i];
  }

  type Key = seq<Byte>

  // ---- State ------------------------------------------------------------------------

  /** A bearer token, with the exchange it came from: the key presented, when the request was
      started, when the response was stored or returned, and the lifetime stated in seconds. */
  datatype Minted = Minted(access: string, presented: Key, started: int, stored: int, seconds: int)

  /** One cachedToken.  `held` is the thread in the gate; no token means a zero expiry. */
  datatype Entry = Entry(key: Key, held: Option<ThreadId>, token: Option<Minted>, expires: int)

  datatype Thread =
    | Called(key: Key)
    | Waiting(key: Key, ref: Ref)
    | Holding(key: Key, ref: Ref)
    | Exchanging(key: Key, ref: Ref, started: int)
    | Received(key: Key, ref: Ref, started: int, access: string, seconds: int)
    | Returned(key: Key, token: Minted, cached: bool, at: int)
    | Failed(key: Key)

  datatype State = State(
    now: int,
    cache: map<Key, Ref>,
    entries: seq<Entry>,
    threads: map<ThreadId, Thread>)

  datatype Action =
    | Call(t: ThreadId, key: Key)
    | LookUp(t: ThreadId)
    | Enter(t: ThreadId)
    | GiveUp(t: ThreadId)
    | Check(t: ThreadId)
    | Answer(t: ThreadId, access: string, seconds: int)
    | Fail(t: ThreadId)
    | Store(t: ThreadId)
    | Pass(time: nat)

  const INITIAL := State(0, map[], [], map[])

  // ---- Steps ------------------------------------------------------------------------

  function Lifetime(seconds: int): int {
    Min(seconds, LONGEST) * SECOND
  }

  function Skew(seconds: int): int {
    Min(Lifetime(seconds) / 10, MOST_SKEW)
  }

  function Goto(s: State, t: ThreadId, at: Thread): State {
    s.(threads := s.threads[t := at])
  }

  /** Leave the gate and finish. */
  function Leave(s: State, t: ThreadId, ref: Ref, at: Thread): State
    requires ref < |s.entries|
  {
    Goto(s.(entries := s.entries[ref := s.entries[ref].(held := None)]), t, at)
  }

  /** The section under the mutex: find the entry, or clear a full cache and add one. */
  function Find(s: State, t: ThreadId, key: Key): State {
    if key in s.cache then Goto(s, t, Waiting(key, s.cache[key]))
    else
      var kept := if |s.cache| >= CAPACITY then map[] else s.cache;
      Goto(s.(cache := kept[key := |s.entries|], entries := s.entries + [Entry(key, None, None, 0)]), t,
        Waiting(key, |s.entries|))
  }

  predicate WellFormed(s: State) {
    && (forall k | k in s.cache :: s.cache[k] < |s.entries|)
    && (forall t | t in s.threads :: !s.threads[t].Called? && !s.threads[t].Returned? && !s.threads[t].Failed? ==>
      s.threads[t].ref < |s.entries|)
  }

  function Act(s: State, a: Action): Option<State>
    requires WellFormed(s)
  {
    match a
    case Pass(time) => Some(s.(now := s.now + time))
    case Call(t, key) => if t in s.threads then None else Some(Goto(s, t, Called(key)))
    case LookUp(t) => if t in s.threads && s.threads[t].Called? then Some(Find(s, t, s.threads[t].key)) else None
    case Enter(t) =>
      if t in s.threads && s.threads[t].Waiting? && s.entries[s.threads[t].ref].held.None? then
        var w := s.threads[t];
        Some(Goto(s.(entries := s.entries[w.ref := s.entries[w.ref].(held := Some(t))]), t, Holding(w.key, w.ref)))
      else None
    case GiveUp(t) => if t in s.threads && s.threads[t].Waiting? then Some(Goto(s, t, Failed(s.threads[t].key)))
      else None
    case Check(t) =>
      if t in s.threads && s.threads[t].Holding? then
        var h := s.threads[t];
        var e := s.entries[h.ref];
        if e.token.Some? && s.now < e.expires then Some(Leave(s, t, h.ref, Returned(h.key, e.token.value, true, s.now)))
        else Some(Goto(s, t, Exchanging(h.key, h.ref, s.now)))
      else None
    case Answer(t, access, seconds) =>
      if t in s.threads && s.threads[t].Exchanging? && access != "" && s.now <= s.threads[t].started + TIMEOUT then
        var x := s.threads[t];
        Some(Goto(s, t, Received(x.key, x.ref, x.started, access, seconds)))
      else None
    case Fail(t) =>
      if t in s.threads && s.threads[t].Exchanging? then Some(Leave(s, t, s.threads[t].ref, Failed(s.threads[t].key)))
        else None
    case Store(t) =>
      if t in s.threads && s.threads[t].Received? then
        var r := s.threads[t];
        var token := Minted(r.access, r.key, r.started, s.now, r.seconds);
        var after := Leave(s, t, r.ref, Returned(r.key, token, false, s.now));
        if r.seconds > 0 then
          Some(after.(entries := after.entries[r.ref := after.entries[r.ref].(token := Some(token),
            expires := s.now + Lifetime(r.seconds) - Skew(r.seconds))]))
        else Some(after)
      else None
  }

  ghost predicate Reaches(s: State, acts: seq<Action>, after: State)
    requires WellFormed(s)
    decreases |acts|
  {
    if acts == [] then s == after
    else match Act(s, acts[0])
      case None => false
      case Some(mid) => WellFormed(mid) && Reaches(mid, acts[1..], after)
  }

  // ---- Invariant --------------------------------------------------------------------

  predicate InGate(p: Thread) {
    p.Holding? || p.Exchanging? || p.Received?
  }

  ghost predicate ThreadInv(s: State, t: ThreadId)
    requires t in s.threads
  {
    var p := s.threads[t];
    && (p.Waiting? || InGate(p) ==> p.ref < |s.entries| && s.entries[p.ref].key == p.key)
    && (InGate(p) ==> s.entries[p.ref].held == Some(t))
    && (p.Exchanging? || p.Received? ==>
      p.started <= s.now && (s.entries[p.ref].token.Some? ==> s.entries[p.ref].expires <= p.started))
    && (p.Returned? ==> p.token.presented == p.key && p.at <= s.now && (p.cached ==> Servable(p.token, p.at)))
  }

  /** A cached token was returned inside the window the code computed for it. */
  ghost predicate Servable(m: Minted, at: int) {
    m.seconds > 0 && m.started <= m.stored <= at < m.stored + Lifetime(m.seconds) - Skew(m.seconds)
  }

  ghost predicate EntryInv(s: State, r: Ref)
    requires r < |s.entries|
  {
    var e := s.entries[r];
    && (e.held.Some? ==>
      e.held.value in s.threads && InGate(s.threads[e.held.value]) && s.threads[e.held.value].ref == r)
    && (e.token.Some? ==> var m := e.token.value;
          && m.presented == e.key && m.seconds > 0 && m.started <= m.stored <= s.now
          && e.expires == m.stored + Lifetime(m.seconds) - Skew(m.seconds))
  }

  ghost predicate Inv(s: State) {
    && WellFormed(s) && CacheInv(s)
    && (forall t | t in s.threads :: ThreadInv(s, t))
    && (forall r: nat | r < |s.entries| :: EntryInv(s, r))
  }

  /** The invariant of the thread that takes the step, and of the entry it works on. */
  ghost predicate ActorInv(s: State, a: Action)
    requires WellFormed(s)
  {
    a.Pass? || a.t !in s.threads ||
    (ThreadInv(s, a.t) && (s.threads[a.t].Waiting? || InGate(s.threads[a.t]) ==> EntryInv(s, s.threads[a.t].ref)))
  }

  ghost predicate CacheInv(s: State)
    requires WellFormed(s)
  {
    |s.cache| <= CAPACITY && forall k | k in s.cache :: s.entries[s.cache[k]].key == k
  }

  /** The thread that takes a step ends up at a program counter that fits its entry. */
  lemma ActKeepsActor(s: State, a: Action)
    requires WellFormed(s) && CacheInv(s) && ActorInv(s, a)
    requires Act(s, a).Some? && !a.Pass?
    ensures a.t in Act(s, a).value.threads && ThreadInv(Act(s, a).value, a.t)
  {
  }

  /** The others stay where they are, and so does the gate they hold. */
  lemma ActKeepsOthers(s: State, a: Action, t: ThreadId)
    requires WellFormed(s) && ActorInv(s, a) && t in s.threads && ThreadInv(s, t)
    requires Act(s, a).Some? && (a.Pass? || a.t != t)
    ensures t in Act(s, a).value.threads && ThreadInv(Act(s, a).value, t)
  {
    var after := Act(s, a).value;
    assert after.threads[t] == s.threads[t] && |s.entries| <= |after.entries| && s.now <= after.now;
    var p := s.threads[t];
    if p.Waiting? || InGate(p) {
      assert after.entries[p.ref].key == s.entries[p.ref].key;
      assert InGate(p) ==> after.entries[p.ref] == s.entries[p.ref];
    }
  }

  lemma ActKeepsEntry(s: State, a: Action, r: Ref)
    requires WellFormed(s) && ActorInv(s, a)
    requires r < |s.entries| ==> EntryInv(s, r)
    requires Act(s, a).Some? && r < |Act(s, a).value.entries|
    ensures EntryInv(Act(s, a).value, r)
  {
    var after := Act(s, a).value;
    if r < |s.entries| && after.entries[r] == s.entries[r] {
      UntouchedEntry(s, a, r);
    }
  }

  /** An entry the step leaves alone keeps its holder where it was. */
  lemma UntouchedEntry(s: State, a: Action, r: Ref)
    requires WellFormed(s) && ActorInv(s, a) && r < |s.entries| && EntryInv(s, r)
    requires Act(s, a).Some? && r < |Act(s, a).value.entries| && Act(s, a).value.entries[r] == s.entries[r]
    ensures EntryInv(Act(s, a).value, r)
  {
  }

  lemma AddedOne(m: map<Key, Ref>, key: Key, ref: Ref)
    requires key !in m
    ensures |m[key := ref]| == |m| + 1
  {
    assert m[key := ref].Keys == m.Keys + {key};
  }

  lemma FindKeepsCache(s: State, t: ThreadId, key: Key)
    requires WellFormed(s) && CacheInv(s)
    ensures WellFormed(Find(s, t, key)) && CacheInv(Find(s, t, key))
  {
    if key !in s.cache {
      var kept := if |s.cache| >= CAPACITY then map[] else s.cache;
      AddedOne(kept, key, |s.entries|);
    }
  }

  lemma ActKeepsCache(s: State, a: Action)
    requires WellFormed(s) && CacheInv(s) && Act(s, a).Some?
    ensures WellFormed(Act(s, a).value) && CacheInv(Act(s, a).value)
  {
    if a.LookUp? {
      FindKeepsCache(s, a.t, s.threads[a.t].key);
    } else {
      assert Act(s, a).value.cache == s.cache;
    }
  }

  lemma ActKeepsInv(s: State, a: Action)
    requires Inv(s) && Act(s, a).Some?
    ensures Inv(Act(s, a).value)
  {
    var after := Act(s, a).value;
    ActKeepsCache(s, a);
    if !a.Pass? && a.t in s.threads { assert ThreadInv(s, a.t); }
    assert ActorInv(s, a);
    forall t | t in after.threads ensures ThreadInv(after, t) {
      if a.Pass? || a.t != t {
        assert t in s.threads;
        ActKeepsOthers(s, a, t);
      } else {
        ActKeepsActor(s, a);
      }
    }
    forall r: nat | r < |after.entries| ensures EntryInv(after, r) { ActKeepsEntry(s, a, r); }
  }

  lemma {:induction false} ReachableInv(before: State, acts: seq<Action>, after: State)
    requires Inv(before) && Reaches(before, acts, after)
    ensures Inv(after)
    decreases |acts|
  {
    if acts != [] {
      ActKeepsInv(before, acts[0]);
      ReachableInv(Act(before, acts[0]).value, acts[1..], after);
    }
  }

  // ---- Properties of every run ------------------------------------------------------

  /** At most one exchange per cache entry is in flight, also across a clear. */
  lemma SingleFlight(acts: seq<Action>, s: State, t: ThreadId, u: ThreadId)
    requires Reaches(INITIAL, acts, s) && t in s.threads && u in s.threads
    requires InGate(s.threads[t]) && InGate(s.threads[u]) && s.threads[t].ref == s.threads[u].ref
    ensures t == u
  {
    ReachableInv(INITIAL, acts, s);
    assert ThreadInv(s, t) && ThreadInv(s, u);
  }

  /** An exchange starts only when its entry holds no token that is still servable, and until it
      ends no other thread makes that entry fresh. */
  lemma NoExchangeWhileFresh(acts: seq<Action>, s: State, t: ThreadId)
    requires Reaches(INITIAL, acts, s) && t in s.threads && s.threads[t].Exchanging?
    ensures var x := s.threads[t];
      x.ref < |s.entries| && (s.entries[x.ref].token.Some? ==> s.entries[x.ref].expires <= x.started <= s.now)
  {
    ReachableInv(INITIAL, acts, s);
    assert ThreadInv(s, t);
  }

  lemma CacheBounded(acts: seq<Action>, s: State)
    requires Reaches(INITIAL, acts, s)
    ensures |s.cache| <= CAPACITY
  {
    ReachableInv(INITIAL, acts, s);
  }

  /** A caller gets a token minted for exactly the options and secret it presented. */
  lemma OwnCredentials(acts: seq<Action>, s: State, t: ThreadId, options: seq<Byte>, secret: seq<Byte>, o: seq<Byte>,
                       k: seq<Byte>)
    requires Reaches(INITIAL, acts, s) && t in s.threads && s.threads[t].Returned?
    requires 0 !in options && 0 !in o
    requires s.threads[t].key == KeyBytes(options, secret) && s.threads[t].token.presented == KeyBytes(o, k)
    ensures o == options && k == secret
  {
    ReachableInv(INITIAL, acts, s);
    assert ThreadInv(s, t);
    KeyBytesInjective(options, secret, o, k);
  }

  /** A cached token is served strictly before the time it was stored plus its stated lifetime.
      When it states at least 200 s and was stored within the timeout of its request, it is
      served strictly before the request start plus that lifetime. */
  lemma ServedInsideLifetime(acts: seq<Action>, s: State, t: ThreadId)
    requires Reaches(INITIAL, acts, s) && t in s.threads && s.threads[t].Returned? && s.threads[t].cached
    ensures var p := s.threads[t];
      && p.token.stored <= p.at < p.token.stored + p.token.seconds * SECOND
      && (p.token.seconds >= 200 && p.token.stored <= p.token.started + TIMEOUT ==>
        p.at < p.token.started + p.token.seconds * SECOND)
  {
    ReachableInv(INITIAL, acts, s);
    assert ThreadInv(s, t);
  }

  /** A failed exchange frees the gate and leaves what is cached; a caller still waiting may give up,
      and changes nothing. */
  lemma FailureLeavesCache(s: State, t: ThreadId)
    requires WellFormed(s) && t in s.threads
    ensures s.threads[t].Exchanging? ==>
      var p := s.threads[t];
      Act(s, Fail(t)) == Some(s.(entries := s.entries[p.ref := s.entries[p.ref].(held := None)],
                                  threads := s.threads[t := Failed(p.key)]))
    ensures s.threads[t].Waiting? ==> Act(s, GiveUp(t)) == Some(s.(threads := s.threads[t := Failed(s.threads[t].key)]))
  {
  }

  // ---- Where tokens come from -------------------------------------------------------

  /** Some call with the key the token was minted for got it as its answer. */
  ghost predicate Answered(all: seq<Action>, m: Minted) {
    exists u :: Call(u, m.presented) in all && Answer(u, m.access, m.seconds) in all
  }

  ghost predicate ThreadOrigin(all: seq<Action>, t: ThreadId, p: Thread) {
    && Call(t, p.key) in all
    && (p.Received? ==> Answer(t, p.access, p.seconds) in all)
    && (p.Returned? ==> Answered(all, p.token))
  }

  ghost predicate Origin(s: State, all: seq<Action>) {
    && WellFormed(s)
    && (forall t | t in s.threads :: ThreadOrigin(all, t, s.threads[t]))
    && (forall r: nat | r < |s.entries| && s.entries[r].token.Some? :: Answered(all, s.entries[r].token.value))
  }

  lemma ActorKeepsOrigin(s: State, a: Action, all: seq<Action>)
    requires Origin(s, all) && Act(s, a).Some? && !a.Pass? && a in all
    ensures a.t in Act(s, a).value.threads && ThreadOrigin(all, a.t, Act(s, a).value.threads[a.t])
  {
    assert a.t in s.threads ==> ThreadOrigin(all, a.t, s.threads[a.t]);
    if a.Store? {
      var m := Act(s, a).value.threads[a.t].token;
      assert Call(a.t, m.presented) in all && Answer(a.t, m.access, m.seconds) in all;
    }
  }

  lemma EntryKeepsOrigin(s: State, a: Action, all: seq<Action>, r: Ref)
    requires Origin(s, all) && Act(s, a).Some? && a in all
    requires r < |Act(s, a).value.entries| && Act(s, a).value.entries[r].token.Some?
    ensures Answered(all, Act(s, a).value.entries[r].token.value)
  {
    var after := Act(s, a).value;
    if !(r < |s.entries| && after.entries[r].token == s.entries[r].token) {
      ActorKeepsOrigin(s, a, all);
      assert a.Store? && after.entries[r].token.value == after.threads[a.t].token;
    }
  }

  lemma {:induction false} ReachableOrigin(s: State, acts: seq<Action>, after: State, all: seq<Action>)
    requires Origin(s, all) && Reaches(s, acts, after) && forall i | 0 <= i < |acts| :: acts[i] in all
    ensures Origin(after, all)
    decreases |acts|
  {
    if acts != [] {
      var mid := Act(s, acts[0]).value;
      forall t | t in mid.threads ensures ThreadOrigin(all, t, mid.threads[t]) {
        if acts[0].Pass? || acts[0].t != t {
          assert t in s.threads && mid.threads[t] == s.threads[t];
        } else {
          ActorKeepsOrigin(s, acts[0], all);
        }
      }
      forall r: nat | r < |mid.entries| && mid.entries[r].token.Some?
        ensures Answered(all, mid.entries[r].token.value) {
        EntryKeepsOrigin(s, acts[0], all, r);
      }
      ReachableOrigin(mid, acts[1..], after, all);
    }
  }

  /** A returned token, cached or not, is one the token endpoint answered to a call with the very
      options and secret of the caller, with the lifetime it stated. */
  lemma ReturnedWasAnswered(acts: seq<Action>, s: State, t: ThreadId)
    requires Reaches(INITIAL, acts, s) && t in s.threads && s.threads[t].Returned?
    ensures var p := s.threads[t];
      Call(t, p.key) in acts && exists u :: Call(u, p.key) in acts && Answer(u, p.token.access, p.token.seconds) in acts
  {
    ReachableOrigin(INITIAL, acts, s, acts);
    assert ThreadOrigin(acts, t, s.threads[t]);
    ReachableInv(INITIAL, acts, s);
    assert ThreadInv(s, t);
  }

  /** A key leaves the cache, or changes its entry, exactly when another key, not in it, finds it full. */
  lemma EvictedExactly(s: State, a: Action, key: Key)
    requires WellFormed(s) && Act(s, a).Some? && key in s.cache
    ensures key in Act(s, a).value.cache && Act(s, a).value.cache[key] == s.cache[key] <==>
      !(a.LookUp? && s.threads[a.t].key !in s.cache && |s.cache| >= 256)
  {
  }

  // ---- When a token outlives its lifetime, counted from the request -----------------

  lemma {:induction false} ReachesAppend(s: State, acts: seq<Action>, mid: State, more: seq<Action>, after: State)
    requires WellFormed(s) && Reaches(s, acts, mid) && WellFormed(mid) && Reaches(mid, more, after)
    ensures Reaches(s, acts + more, after)
    decreases |acts|
  {
    if acts == [] {
      assert acts + more == more;
    } else {
      assert (acts + more)[1..] == acts[1..] + more;
      ReachesAppend(Act(s, acts[0]).value, acts[1..], mid, more, after);
    }
  }

  lemma ReachesNext(s: State, acts: seq<Action>, mid: State, a: Action, after: State)
    requires WellFormed(s) && WellFormed(mid) && Reaches(s, acts, mid) && Act(mid, a) == Some(after)
      && WellFormed(after)
    ensures Reaches(s, acts + [a], after)
  {
    assert [a][1..] == [];
    ReachesAppend(s, acts, mid, [a], after);
  }

  /** Into a gate that is free. */
  lemma Enters(acts: seq<Action>, s: State, t: ThreadId, key: Key, e: Entry)
    requires WellFormed(s) && Reaches(INITIAL, acts, s)
    requires s.entries == [e] && e.held.None? && t in s.threads && s.threads[t] == Waiting(key, 0)
    ensures var after := s.(entries := [e.(held := Some(t))], threads := s.threads[t := Holding(key, 0)]);
      WellFormed(after) && Reaches(INITIAL, acts + [Enter(t)], after)
  {
    var after := s.(entries := [e.(held := Some(t))], threads := s.threads[t := Holding(key, 0)]);
    assert s.entries[0 := e.(held := Some(t))] == after.entries;
    ReachesNext(INITIAL, acts, s, Enter(t), after);
  }

  /** A call with a key the cache knows. */
  lemma FindsEntry(acts: seq<Action>, s: State, t: ThreadId, key: Key)
    requires WellFormed(s) && Reaches(INITIAL, acts, s) && t !in s.threads && s.cache == map[key := 0]
    ensures var after := Goto(s, t, Waiting(key, 0));
      WellFormed(after) && Reaches(INITIAL, acts + [Call(t, key)] + [LookUp(t)], after)
  {
    var called, after := Goto(s, t, Called(key)), Goto(s, t, Waiting(key, 0));
    assert called.threads[t := Waiting(key, 0)] == after.threads;
    ReachesNext(INITIAL, acts, s, Call(t, key), called);
    ReachesNext(INITIAL, acts + [Call(t, key)], called, LookUp(t), after);
  }

  /** The first call of all. */
  lemma MakesEntry(key: Key)
    ensures var after := State(0, map[key := 0], [Entry(key, None, None, 0)], map[0 := Waiting(key, 0)]);
      WellFormed(after) && Reaches(INITIAL, [Call(0, key)] + [LookUp(0)], after)
  {
    var called := Goto(INITIAL, 0, Called(key));
    var after := State(0, map[key := 0], [Entry(key, None, None, 0)], map[0 := Waiting(key, 0)]);
    assert called.threads[0 := Waiting(key, 0)] == after.threads;
    assert |called.cache| == 0 && called.cache[key := 0] == after.cache;
    assert called.entries + [Entry(key, None, None, 0)] == after.entries;
    assert [] + [Call(0, key)] == [Call(0, key)];
    ReachesNext(INITIAL, [], INITIAL, Call(0, key), called);
    ReachesNext(INITIAL, [Call(0, key)], called, LookUp(0), after);
  }

  /** It starts an exchange. */
  lemma StartsExchange(key: Key) returns (acts: seq<Action>, after: State)
    ensures after == State(0, map[key := 0], [Entry(key, Some(0), None, 0)], map[0 := Exchanging(key, 0, 0)])
    ensures WellFormed(after) && Reaches(INITIAL, acts, after)
  {
    var e := Entry(key, None, None, 0);
    var waiting := State(0, map[key := 0], [e], map[0 := Waiting(key, 0)]);
    var holding := waiting.(entries := [e.(held := Some(0))], threads := waiting.threads[0 := Holding(key, 0)]);
    after := State(0, map[key := 0], [Entry(key, Some(0), None, 0)], map[0 := Exchanging(key, 0, 0)]);
    acts := [Call(0, key)] + [LookUp(0)];
    MakesEntry(key);
    Enters(acts, waiting, 0, key, e);
    assert holding.threads[0 := Exchanging(key, 0, 0)] == after.threads;
    ReachesNext(INITIAL, acts + [Enter(0)], holding, Check(0), after);
    acts := acts + [Enter(0)] + [Check(0)];
  }

  lemma Passes(acts: seq<Action>, s: State, time: int) returns (later: seq<Action>)
    requires WellFormed(s) && Reaches(INITIAL, acts, s) && time >= s.now
    ensures WellFormed(s.(now := time)) && Reaches(INITIAL, later, s.(now := time))
  {
    ReachesNext(INITIAL, acts, s, Pass(time - s.now), s.(now := time));
    later := acts + [Pass(time - s.now)];
  }

  /** The answer comes `delay` later, or at the timeout if that is sooner. */
  lemma GetsAnswer(key: Key, seconds: int, delay: nat) returns (acts: seq<Action>, after: State)
    ensures after == State(Min(delay, TIMEOUT), map[key := 0], [Entry(key, Some(0), None, 0)],
                           map[0 := Received(key, 0, 0, "token", seconds)])
    ensures WellFormed(after) && Reaches(INITIAL, acts, after)
  {
    var start, s := StartsExchange(key);
    var first := Min(delay, TIMEOUT);
    acts := Passes(start, s, first);
    var late := s.(now := first);
    after := State(first, map[key := 0], [Entry(key, Some(0), None, 0)],
      map[0 := Received(key, 0, 0, "token", seconds)]);
    assert late.threads[0 := Received(key, 0, 0, "token", seconds)] == after.threads;
    ReachesNext(INITIAL, acts, late, Answer(0, "token", seconds), after);
    acts := acts + [Answer(0, "token", seconds)];
  }

  /** The state after a store by the only thread. */
  function Cached(key: Key, token: Minted, now: int): State {
    State(now, map[key := 0], [Entry(key, None, Some(token), now + Lifetime(token.seconds) - Skew(token.seconds))],
          map[0 := Returned(key, token, false, now)])
  }

  lemma StoresToken(key: Key, seconds: int, now: int)
    requires seconds > 0
    ensures var s := State(now, map[key := 0], [Entry(key, Some(0), None, 0)],
      map[0 := Received(key, 0, 0, "token", seconds)]);
      WellFormed(s) && Act(s, Store(0)) == Some(Cached(key, Minted("token", key, 0, now, seconds), now))
  {
    var s := State(now, map[key := 0], [Entry(key, Some(0), None, 0)], map[0 := Received(key, 0, 0, "token", seconds)]);
    var token := Minted("token", key, 0, now, seconds);
    var left := s.entries[0 := s.entries[0].(held := None)];
    var expires := now + Lifetime(seconds) - Skew(seconds);
    assert left == [Entry(key, None, None, 0)];
    assert left[0 := left[0].(token := Some(token), expires := expires)] == [Entry(key, None, Some(token), expires)];
    assert s.threads[0 := Returned(key, token, false, now)] == map[0 := Returned(key, token, false, now)];
  }

  /** What is stored `delay` after the request. */
  lemma CachesToken(key: Key, seconds: int, delay: nat) returns (acts: seq<Action>)
    requires seconds > 0
    ensures var after := Cached(key, Minted("token", key, 0, delay, seconds), delay);
      WellFormed(after) && Reaches(INITIAL, acts, after)
  {
    var start, answered := GetsAnswer(key, seconds, delay);
    acts := Passes(start, answered, delay);
    StoresToken(key, seconds, delay);
    ReachesNext(INITIAL, acts, answered.(now := delay), Store(0),
      Cached(key, Minted("token", key, 0, delay, seconds), delay));
    acts := acts + [Store(0)];
  }

  /** Another caller is served it at any time up to its expiry. */
  lemma ServesToken(key: Key, seconds: int, delay: nat, at: int) returns (acts: seq<Action>, s: State)
    requires seconds > 0 && delay <= at < delay + Lifetime(seconds) - Skew(seconds)
    ensures Reaches(INITIAL, acts, s)
    ensures 1 in s.threads && s.threads[1] == Returned(key, Minted("token", key, 0, delay, seconds), true, at)
  {
    var token := Minted("token", key, 0, delay, seconds);
    var cached := Cached(key, token, delay);
    var start := CachesToken(key, seconds, delay);
    FindsEntry(start, cached, 1, key);
    var waiting := Goto(cached, 1, Waiting(key, 0));
    Enters(start + [Call(1, key)] + [LookUp(1)], waiting, 1, key, cached.entries[0]);
    var holding := waiting.(entries := [cached.entries[0].(held := Some(1))],
      threads := waiting.threads[1 := Holding(key, 0)]);
    acts := Passes(start + [Call(1, key)] + [LookUp(1)] + [Enter(1)], holding, at);
    s := Act(holding.(now := at), Check(1)).value;
    ReachesNext(INITIAL, acts, holding.(now := at), Check(1), s);
    acts := acts + [Check(1)];
  }

  /** Some caller is served a token of this lifetime, stored this long after its request, when the
      lifetime counted from the request is over. */
  ghost predicate Outlives(acts: seq<Action>, s: State, t: ThreadId, seconds: int, delay: int) {
    && Reaches(INITIAL, acts, s) && t in s.threads && s.threads[t].Returned? && s.threads[t].cached
    && s.threads[t].token.seconds == seconds && s.threads[t].token.stored - s.threads[t].token.started == delay
    && s.threads[t].at >= s.threads[t].token.started + seconds * SECOND
  }

  /** How long after the request a token must be stored for that. */
  function Slack(seconds: int): int {
    seconds * SECOND - Lifetime(seconds) + Skew(seconds)
  }

  lemma OutlivesLate(acts: seq<Action>, s: State, t: ThreadId, seconds: int, delay: int)
    requires Outlives(acts, s, t, seconds, delay)
    ensures delay > Slack(seconds)
  {
    ReachableInv(INITIAL, acts, s);
    assert ThreadInv(s, t);
  }

  /** That happens in some run exactly when the delay exceeds the slack, which is the skew for
      lifetimes of up to a day: so it happens for a lifetime of 100 s and an answer after 15 s. */
  lemma OutlivesExactly(key: Key, seconds: int, delay: nat)
    requires 0 < seconds
    ensures (exists acts, s, t :: Outlives(acts, s, t, seconds, delay)) <==> delay > Slack(seconds)
    ensures seconds <= LONGEST ==> Slack(seconds) == Skew(seconds)
    ensures Slack(100) == 10 * SECOND < 15 * SECOND < TIMEOUT && Slack(1000) == 30 * SECOND
    ensures Slack(86401) == 31 * SECOND
  {
    forall acts, s, t | Outlives(acts, s, t, seconds, delay) ensures delay > Slack(seconds) {
      OutlivesLate(acts, s, t, seconds, delay);
    }
    if delay > Slack(seconds) {
      var acts, s := ServesToken(key, seconds, delay, Max(delay, seconds * SECOND));
      assert Outlives(acts, s, 1, seconds, delay);
    }
  }
}
