/** The leased webhook delivery queue and its workers (internal/store/operations.go,
    internal/operations/monitor.go).  Times are seconds.

    Each statement is one step.  Rows locked by another statement are skipped, so a worker may
    be given any due row.  Workers, the clock and the operator interleave freely. */
module Deliveries {
  import opened Prelude

  type Id = nat
  type WorkerId = nat

  const LEASE := 60
  const MINUTE := 60

  datatype Row = Row(attempts: nat, nextAttempt: int)

  /** A delivery as NextDelivery returned it, and when. */
  datatype Held = Held(id: Id, attempts: nat, at: int)

  /** An unsuccessful FinishDelivery: when, and the attempts recorded before it. */
  datatype Failure = Failure(id: Id, attempts: nat, at: int)

  datatype State = State(
    now: int,
    rows: map<Id, Row>,
    nextId: Id,
    holds: map<WorkerId, Held>,
    failures: seq<Failure>,
    leases: seq<Held>,
    delivered: set<Id>,
    purged: set<Id>)

  datatype Action =
    | Enqueue
    | Lease(w: WorkerId, id: Id)
    | Finish(w: WorkerId, success: bool)
    | Crash(w: WorkerId)
    | Purge(gone: set<Id>)
    | Pass(time: nat)

  const EMPTY := State(0, map[], 0, map[], [], [], {}, {})

  predicate Due(rows: map<Id, Row>, now: int, id: Id) {
    id in rows && rows[id].nextAttempt <= now
  }

  /** NextDelivery on the row it picks. */
  function Leased(rows: map<Id, Row>, now: int, id: Id): map<Id, Row>
    requires id in rows
  {
    rows[id := rows[id].(nextAttempt := now + LEASE)]
  }

  /** FinishDelivery. */
  function Finished(rows: map<Id, Row>, now: int, d: Held, success: bool): map<Id, Row> {
    if success || d.attempts >= 2 then rows - {d.id}
    else if d.id in rows then rows[d.id := Row(rows[d.id].attempts + 1, now + (d.attempts + 1) * 5 * MINUTE)]
    else rows
  }

  function Act(s: State, a: Action): Option<State> {
    match a
    case Enqueue => Some(s.(rows := s.rows[s.nextId := Row(0, s.now)], nextId := s.nextId + 1))
    case Lease(w, id) =>
      if w in s.holds || !Due(s.rows, s.now, id) then None
      else
        var d := Held(id, s.rows[id].attempts, s.now);
        Some(s.(rows := Leased(s.rows, s.now, id), holds := s.holds[w := d], leases := s.leases + [d]))
    case Finish(w, success) =>
      if w !in s.holds then None
      else
        var d := s.holds[w];
        var after := s.(rows := Finished(s.rows, s.now, d, success), holds := s.holds - {w});
        if success then Some(after.(delivered := s.delivered + {d.id}))
        else Some(after.(failures := s.failures + [Failure(d.id, d.attempts, s.now)]))
    case Crash(w) => Some(s.(holds := s.holds - {w}))
    case Purge(gone) => Some(s.(rows := s.rows - gone, purged := s.purged + gone * s.rows.Keys))
    case Pass(time) => Some(s.(now := s.now + time))
  }

  /** Workers finish or crash before their lease runs out. */
  predicate Prompt(s: State, a: Action) {
    a.Pass? ==> forall w | w in s.holds :: s.now + a.time < s.holds[w].at + LEASE
  }

  ghost predicate Reaches(s: State, acts: seq<Action>, after: State)
    decreases |acts|
  {
    if acts == [] then s == after
    else Prompt(s, acts[0]) && match Act(s, acts[0])
      case None => false
      case Some(mid) => Reaches(mid, acts[1..], after)
  }

  /** Failures recorded for a delivery. */
  function Count(failures: seq<Failure>, id: Id): nat
    decreases |failures|
  {
    if failures == [] then 0
    else Count(failures[..|failures| - 1], id) + if failures[|failures| - 1].id == id then 1 else 0
  }

  lemma CountAppend(failures: seq<Failure>, f: Failure, id: Id)
    ensures Count(failures + [f], id) == Count(failures, id) + if f.id == id then 1 else 0
  {
    assert (failures + [f])[..|failures|] == failures;
  }

  function Wait(attempts: nat): int {
    (attempts + 1) * 5 * MINUTE
  }

  /** A row still queued records its failures, and is not due before the wait after the last. */
  ghost predicate RowInv(s: State, id: Id)
    requires id in s.rows
  {
    && id < s.nextId && id !in s.delivered
    && s.rows[id].attempts == Count(s.failures, id) <= 2
    && (forall f | f in s.failures && f.id == id :: f.attempts < s.rows[id].attempts)
    && (forall f | f in s.failures && f.id == id && f.attempts + 1 == s.rows[id].attempts ::
      s.rows[id].nextAttempt >= f.at + Wait(f.attempts))
  }

  ghost predicate HoldInv(s: State, w: WorkerId)
    requires w in s.holds
  {
    var d := s.holds[w];
    && d.id < s.nextId && d.id !in s.delivered && s.now < d.at + LEASE
    && d.attempts == Count(s.failures, d.id) <= 2
    && (forall f | f in s.failures && f.id == d.id :: f.attempts < d.attempts)
    && (d.id in s.rows ==> s.rows[d.id] == Row(d.attempts, d.at + LEASE))
  }

  ghost predicate LogInv(s: State) {
    && (forall f | f in s.failures :: f.id < s.nextId && f.attempts <= 2)
    && (forall id | id in s.delivered :: id < s.nextId)
    && (forall id :: Count(s.failures, id) <= 3)
    && (forall l, f | l in s.leases && f in s.failures && l.id == f.id && l.attempts == f.attempts + 1 ::
      l.at >= f.at + Wait(f.attempts))
    && (forall l | l in s.leases :: l.attempts <= 2 && l.id < s.nextId)
    && (forall l | l in s.leases && l.id in s.rows :: l.attempts <= s.rows[l.id].attempts)
    && (forall l, w | l in s.leases && w in s.holds && l.id == s.holds[w].id :: l.attempts <= s.holds[w].attempts)
  }

  ghost predicate Inv(s: State) {
    && (forall id | id in s.rows :: RowInv(s, id))
    && (forall w | w in s.holds :: HoldInv(s, w))
    && (forall v, w | v in s.holds && w in s.holds && v != w :: s.holds[v].id != s.holds[w].id)
    && LogInv(s)
  }

  lemma EnqueueKeepsInv(s: State)
    requires Inv(s)
    ensures Inv(Act(s, Enqueue).value)
  {
    NoFailures(s.failures, s.nextId);
    var after := Act(s, Enqueue).value;
    forall id | id in after.rows ensures RowInv(after, id) {
      if id != s.nextId { assert RowInv(s, id); }
    }
    forall w | w in after.holds ensures HoldInv(after, w) { assert HoldInv(s, w); }
  }

  lemma {:induction false} NoFailures(failures: seq<Failure>, id: Id)
    requires forall f | f in failures :: f.id != id
    ensures Count(failures, id) == 0
    decreases |failures|
  {
    if failures != [] {
      NoFailures(failures[..|failures| - 1], id);
    }
  }

  lemma LeaseKeepsLog(s: State, w: WorkerId, id: Id)
    requires Inv(s) && Act(s, Lease(w, id)).Some?
    ensures LogInv(Act(s, Lease(w, id)).value)
  {
    assert RowInv(s, id);
  }

  lemma LeaseKeepsHold(s: State, w: WorkerId, id: Id, v: WorkerId)
    requires Inv(s) && Act(s, Lease(w, id)).Some? && v in Act(s, Lease(w, id)).value.holds
    ensures HoldInv(Act(s, Lease(w, id)).value, v)
    ensures v != w ==> s.holds[v].id != id
  {
    assert RowInv(s, id);
    if v != w { assert HoldInv(s, v); }
  }

  lemma LeaseKeepsInv(s: State, w: WorkerId, id: Id)
    requires Inv(s) && Act(s, Lease(w, id)).Some?
    ensures Inv(Act(s, Lease(w, id)).value)
  {
    var after := Act(s, Lease(w, id)).value;
    LeaseKeepsLog(s, w, id);
    forall v | v in after.holds
      ensures (v != w ==> s.holds[v].id != id) && HoldInv(after, v) { LeaseKeepsHold(s, w, id, v); }
    forall i | i in after.rows ensures RowInv(after, i) { assert RowInv(s, i); }
  }

  lemma SuccessKeepsInv(s: State, w: WorkerId)
    requires Inv(s) && w in s.holds
    ensures Inv(Act(s, Finish(w, true)).value)
  {
    var after := Act(s, Finish(w, true)).value;
    assert HoldInv(s, w);
    forall id | id in after.rows ensures RowInv(after, id) { assert RowInv(s, id); }
    forall v | v in after.holds ensures HoldInv(after, v) { assert HoldInv(s, v); }
  }

  lemma FailureKeepsRow(s: State, w: WorkerId, id: Id)
    requires Inv(s) && w in s.holds && id in Act(s, Finish(w, false)).value.rows
    ensures RowInv(Act(s, Finish(w, false)).value, id)
  {
    var d := s.holds[w];
    assert HoldInv(s, w) && RowInv(s, id);
    CountAppend(s.failures, Failure(d.id, d.attempts, s.now), id);
  }

  lemma FailureKeepsHold(s: State, w: WorkerId, v: WorkerId)
    requires Inv(s) && w in s.holds && v in s.holds && v != w
    ensures HoldInv(Act(s, Finish(w, false)).value, v)
  {
    var d := s.holds[w];
    assert HoldInv(s, v) && s.holds[v].id != d.id;
    CountAppend(s.failures, Failure(d.id, d.attempts, s.now), s.holds[v].id);
  }

  lemma FailureKeepsLog(s: State, w: WorkerId)
    requires Inv(s) && w in s.holds
    ensures LogInv(Act(s, Finish(w, false)).value)
  {
    var d := s.holds[w];
    assert HoldInv(s, w);
    var f := Failure(d.id, d.attempts, s.now);
    forall id ensures Count(s.failures + [f], id) <= 3 {
      CountAppend(s.failures, f, id);
    }
    if d.id in s.rows { assert RowInv(s, d.id); }
  }

  lemma FinishKeepsInv(s: State, w: WorkerId, success: bool)
    requires Inv(s) && w in s.holds
    ensures Inv(Act(s, Finish(w, success)).value)
  {
    if success {
      SuccessKeepsInv(s, w);
    } else {
      var after := Act(s, Finish(w, false)).value;
      FailureKeepsLog(s, w);
      forall id | id in after.rows ensures RowInv(after, id) { FailureKeepsRow(s, w, id); }
      forall v | v in after.holds ensures HoldInv(after, v) { FailureKeepsHold(s, w, v); }
    }
  }

  lemma RestKeepsInv(s: State, a: Action)
    requires Inv(s) && Prompt(s, a) && (a.Crash? || a.Purge? || a.Pass?)
    ensures Inv(Act(s, a).value)
  {
    var after := Act(s, a).value;
    assert after.failures == s.failures && after.leases == s.leases;
    forall id | id in after.rows ensures RowInv(after, id) { assert RowInv(s, id); }
    forall w | w in after.holds ensures HoldInv(after, w) { assert HoldInv(s, w); }
  }

  lemma ActKeepsInv(s: State, a: Action)
    requires Inv(s) && Prompt(s, a) && Act(s, a).Some?
    ensures Inv(Act(s, a).value)
  {
    match a
    case Enqueue => EnqueueKeepsInv(s);
    case Lease(w, id) => LeaseKeepsInv(s, w, id);
    case Finish(w, success) => FinishKeepsInv(s, w, success);
    case _ => RestKeepsInv(s, a);
  }

  lemma {:induction false} ReachableInv(start: State, acts: seq<Action>, after: State)
    requires Inv(start) && Reaches(start, acts, after)
    ensures Inv(after)
    decreases |acts|
  {
    if acts != [] {
      ActKeepsInv(start, acts[0]);
      ReachableInv(Act(start, acts[0]).value, acts[1..], after);
    }
  }

  // ---- Properties of every run ------------------------------------------------------

  /** A delivery is in the queue as long as nothing of the kind has ended it. */
  ghost predicate Kept(s: State, id: Id) {
    id in s.rows <==> id < s.nextId && id !in s.delivered && id !in s.purged && Count(s.failures, id) < 3
  }

  /** What is not in use yet has no past. */
  ghost predicate Unused(s: State) {
    && (forall id | id in s.delivered :: id < s.nextId)
    && (forall id | id in s.purged :: id < s.nextId)
    && (forall f | f in s.failures :: f.id < s.nextId)
  }

  lemma FailureKeepsKept(s: State, w: WorkerId, id: Id)
    requires Inv(s) && Kept(s, id) && w in s.holds
    ensures Kept(Act(s, Finish(w, false)).value, id)
  {
    var d, after := s.holds[w], Act(s, Finish(w, false)).value;
    assert HoldInv(s, w);
    CountAppend(s.failures, Failure(d.id, d.attempts, s.now), id);
    assert Count(after.failures, id) == Count(s.failures, id) + if d.id == id then 1 else 0;
  }

  lemma SuccessKeepsKept(s: State, w: WorkerId, id: Id)
    requires Inv(s) && Kept(s, id) && w in s.holds
    ensures Kept(Act(s, Finish(w, true)).value, id)
  {
    var after := Act(s, Finish(w, true)).value;
    assert after.rows == s.rows - {s.holds[w].id} && after.delivered == s.delivered + {s.holds[w].id};
  }

  lemma EnqueueKeepsKept(s: State, id: Id)
    requires Inv(s) && Unused(s) && Kept(s, id)
    ensures Kept(Act(s, Enqueue).value, id)
  {
    var after := Act(s, Enqueue).value;
    assert after.failures == s.failures && after.delivered == s.delivered && after.purged == s.purged;
    if id == s.nextId {
      NoFailures(s.failures, id);
      assert Count(s.failures, id) == 0 && id !in s.delivered && id !in s.purged;
    } else {
      assert id in after.rows <==> id in s.rows;
    }
  }

  lemma RestKeepsKept(s: State, a: Action, id: Id)
    requires Kept(s, id) && Act(s, a).Some? && (a.Lease? || a.Crash? || a.Purge? || a.Pass?)
    ensures Kept(Act(s, a).value, id)
  {
    var after := Act(s, a).value;
    assert after.failures == s.failures && after.delivered == s.delivered && after.nextId == s.nextId;
  }

  lemma ActKeepsKept(s: State, a: Action, id: Id)
    requires Inv(s) && Unused(s) && Kept(s, id) && Act(s, a).Some?
    ensures Kept(Act(s, a).value, id)
  {
    match a
    case Enqueue => EnqueueKeepsKept(s, id);
    case Finish(w, success) => if success { SuccessKeepsKept(s, w, id); } else { FailureKeepsKept(s, w, id); }
    case _ => RestKeepsKept(s, a, id);
  }

  lemma FinishKeepsUnused(s: State, w: WorkerId, success: bool)
    requires Inv(s) && Unused(s) && w in s.holds
    ensures Unused(Act(s, Finish(w, success)).value)
  {
    assert HoldInv(s, w);
    var d, after := s.holds[w], Act(s, Finish(w, success)).value;
    assert after.purged == s.purged && after.nextId == s.nextId;
    forall f | f in after.failures ensures f.id < after.nextId {
      assert f in s.failures || f.id == d.id;
    }
  }

  lemma ActKeepsUnused(s: State, a: Action)
    requires Inv(s) && Unused(s) && Act(s, a).Some?
    ensures Unused(Act(s, a).value)
  {
    if a.Finish? {
      FinishKeepsUnused(s, a.w, a.success);
    } else {
      var after := Act(s, a).value;
      assert after.failures == s.failures && after.delivered == s.delivered && s.nextId <= after.nextId;
      forall id | id in after.purged ensures id < after.nextId {
        assert id in s.purged || id in s.rows;
        if id in s.rows {
          assert RowInv(s, id);
        }
      }
    }
  }

  lemma {:induction false} ReachableKept(s: State, acts: seq<Action>, after: State, id: Id)
    requires Inv(s) && Unused(s) && Kept(s, id) && Reaches(s, acts, after)
    ensures Kept(after, id)
    decreases |acts|
  {
    if acts != [] {
      ActKeepsInv(s, acts[0]);
      ActKeepsUnused(s, acts[0]);
      ActKeepsKept(s, acts[0], id);
      ReachableKept(Act(s, acts[0]).value, acts[1..], after, id);
    }
  }

  /** A delivery, once queued, is in the queue exactly until it is delivered, purged or has failed
      three times: no failure before the third loses it. */
  lemma QueuedExactly(acts: seq<Action>, s: State, id: Id)
    requires Reaches(EMPTY, acts, s)
    ensures id in s.rows <==> id < s.nextId && id !in s.delivered && id !in s.purged && Count(s.failures, id) < 3
  {
    ReachableKept(EMPTY, acts, s, id);
  }

  /** A new delivery is due at once. */
  lemma NewIsDue(s: State)
    ensures Due(Act(s, Enqueue).value.rows, s.now, s.nextId) && Act(s, Enqueue).value.rows[s.nextId].attempts == 0
  {
  }

  /** A failed one that is still queued is due again exactly five minutes after its first failure,
      or ten after its second. */
  lemma RetryDueExactly(acts: seq<Action>, s: State, w: WorkerId, time: int)
    requires Reaches(EMPTY, acts, s) && w in s.holds && s.holds[w].id in s.rows
    ensures var id, after := s.holds[w].id, Act(s, Finish(w, false)).value;
      Due(after.rows, time, id) <==>
        Count(after.failures, id) < 3 && time >= s.now + (if Count(after.failures, id) == 1 then 5 else 10) * MINUTE
  {
    ReachableInv(EMPTY, acts, s);
    var d := s.holds[w];
    assert HoldInv(s, w);
    CountAppend(s.failures, Failure(d.id, d.attempts, s.now), d.id);
  }

  /** No delivery is held by two workers at once. */
  lemma ExclusiveHold(acts: seq<Action>, s: State, v: WorkerId, w: WorkerId)
    requires Reaches(EMPTY, acts, s) && v in s.holds && w in s.holds && s.holds[v].id == s.holds[w].id
    ensures v == w
  {
    ReachableInv(EMPTY, acts, s);
  }

  /** The attempts of a queued delivery are its recorded failures, at most two; a success or the
      third failure takes it out of the queue for good. */
  lemma AttemptsAreFailures(acts: seq<Action>, s: State, id: Id)
    requires Reaches(EMPTY, acts, s)
    ensures id in s.rows ==> s.rows[id].attempts == Count(s.failures, id) <= 2 && id !in s.delivered
    ensures Count(s.failures, id) <= 3
    ensures Count(s.failures, id) == 3 || id in s.delivered ==> id !in s.rows
  {
    ReachableInv(EMPTY, acts, s);
    if id in s.rows { assert RowInv(s, id); }
  }

  /** A try that follows a first failure comes at least five minutes later, and one that follows
      a second failure at least ten. */
  lemma RetriesWait(acts: seq<Action>, s: State, l: Held, f: Failure)
    requires Reaches(EMPTY, acts, s) && l in s.leases && f in s.failures && l.id == f.id && l.attempts == f.attempts + 1
    ensures f.attempts == 0 ==> l.at >= f.at + 5 * MINUTE
    ensures f.attempts == 1 ==> l.at >= f.at + 10 * MINUTE
    ensures f.attempts <= 1
  {
    ReachableInv(EMPTY, acts, s);
  }

  /** A second worker can be given a delivery that one still holds exactly when the row is queued
      and the holder has kept it for the whole lease. */
  lemma DoubleHoldExactly(acts: seq<Action>, s: State, late: nat, v: WorkerId, w: WorkerId)
    requires Reaches(EMPTY, acts, s) && v in s.holds && w !in s.holds
    ensures var after := Act(s, Pass(late)).value;
      Act(after, Lease(w, s.holds[v].id)).Some? <==> s.holds[v].id in s.rows && after.now >= s.holds[v].at + LEASE
  {
    ReachableInv(EMPTY, acts, s);
    assert HoldInv(s, v);
  }

  // ---- The table --------------------------------------------------------------------

  class Queue {
    var rows: map<Id, Row>
    var nextId: Id

    constructor ()
      ensures rows == map[] && nextId == 0
    {
      rows, nextId := map[], 0;
    }

    method Enqueue(now: int) returns (id: Id)
      modifies this
      ensures id == old(nextId) && nextId == id + 1 && rows == old(rows)[id := Row(0, now)]
    {
      id := nextId;
      rows := rows[id := Row(0, now)];
      nextId := nextId + 1;
    }

    /** Leases the due delivery with the smallest identifier; None when nothing is due. */
    method NextDelivery(now: int) returns (d: Option<Held>)
      modifies this`rows
      ensures d.None? ==> rows == old(rows) && forall id :: !Due(rows, now, id)
      ensures d.Some? ==>
                && Due(old(rows), now, d.value.id) && (forall id | Due(old(rows), now, id) :: d.value.id <= id)
                && d.value == Held(d.value.id, old(rows)[d.value.id].attempts, now)
                && rows == Leased(old(rows), now, d.value.id)
    {
      var due := set id | id in rows && Due(rows, now, id);
      assert forall id :: Due(rows, now, id) ==> id in due;
      if due == {} {
        return None;
      }
      var first: Id :| first in due;
      var rest := due - {first};
      while rest != {}
        invariant first in due && rest <= due
        invariant forall id | id in due && id !in rest :: first <= id
        decreases rest
      {
        var id: Id :| id in rest;
        rest := rest - {id};
        if id < first {
          first := id;
        }
      }
      assert forall id :: Due(rows, now, id) ==> first <= id;
      d := Some(Held(first, rows[first].attempts, now));
      rows := Leased(rows, now, first);
    }

    method FinishDelivery(d: Held, now: int, success: bool)
      modifies this`rows
      ensures rows == Finished(old(rows), now, d, success)
    {
      if success || d.attempts >= 2 {
        rows := rows - {d.id};
      } else if d.id in rows {
        rows := rows[d.id := Row(rows[d.id].attempts + 1, now + (d.attempts + 1) * 5 * MINUTE)];
      }
    }
  }
}
