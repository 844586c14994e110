/** Transition events and authorization alerts (internal/store/operations.go, Observe and
    SaveOperationSettings).  Observations of one resource are serialized by an advisory lock, so a
    history is a sequence of whole calls. */
module Alerts {
  datatype Resource = Resource(kind: string, id: string)
  datatype Row = Row(status: string, alerted: bool)

  /** A queued webhook message, or a logged transition: the resource and the status it names. */
  datatype Notice = Notice(resource: Resource, status: string)

  const CONNECTED := "connected"
  const REAUTHORIZE := "reauthorization_required"
  const DISABLED := "disabled"

  /** New settings: the webhook switched on or off, an endpoint entered, the endpoint cleared. */
  datatype Action = Saw(resource: Resource, status: string) | Save(enable: bool, entered: bool, clear: bool)

  /** `queued` is every message ever put in the queue, `waiting` those not thrown away by a save of
      the settings.  What is delivered or pruned does not matter to Observe. */
  datatype State = State(rows: map<Resource, Row>, enabled: bool, endpoint: bool, events: seq<Notice>,
    queued: seq<Notice>, waiting: seq<Notice>)

  predicate Ready(s: State) {
    s.enabled && s.endpoint
  }

  predicate Initial(s: State) {
    s.rows == map[] && s.events == [] && s.queued == [] && s.waiting == []
  }

  function Previous(s: State, r: Resource): string {
    if r in s.rows then s.rows[r].status else ""
  }

  predicate Alerted(s: State, r: Resource) {
    r in s.rows && s.rows[r].alerted
  }

  /** What the observation puts in the queue. */
  predicate Queues(s: State, a: Action) {
    a.Saw? && Ready(s) &&
    ((a.status == REAUTHORIZE && !Alerted(s, a.resource)) || (a.status == CONNECTED && Alerted(s, a.resource)))
  }

  function Act(s: State, a: Action): State {
    match a
    case Save(enable, entered, clear) =>
      State(map r | r in s.rows :: s.rows[r].(alerted := false),
            enable && !clear, entered || (s.endpoint && !clear), s.events, s.queued, [])
    case Saw(r, status) =>
      var alerted := if status == CONNECTED || status == DISABLED then false
                     else if Queues(s, a) then true
                     else Alerted(s, r);
      State(s.rows[r := Row(status, alerted)], s.enabled, s.endpoint,
            if Previous(s, r) != status then s.events + [Notice(r, status)] else s.events,
            if Queues(s, a) then s.queued + [Notice(r, status)] else s.queued,
            if Queues(s, a) then s.waiting + [Notice(r, status)] else s.waiting)
  }

  class Operations {
    var rows: map<Resource, Row>
    var enabled: bool
    var endpoint: bool
    var events: seq<Notice>
    ghost var queued: seq<Notice>
    var waiting: seq<Notice>

    ghost function Now(): State
      reads this
    {
      State(rows, enabled, endpoint, events, queued, waiting)
    }

    constructor ()
      ensures Initial(Now()) && !enabled && !endpoint
    {
      rows, enabled, endpoint, events, queued, waiting := map[], false, false, [], [], [];
    }

    method Observe(r: Resource, status: string)
      modifies this
      ensures Now() == Act(old(Now()), Saw(r, status))
    {
      var previous, alerted := "", false;
      if r in rows {
        previous, alerted := rows[r].status, rows[r].alerted;
      }
      rows := rows[r := Row(status, alerted)];
      if previous != status {
        events := events + [Notice(r, status)];
      }
      if (status == REAUTHORIZE && !alerted) || (status == CONNECTED && alerted) {
        if enabled && endpoint {
          queued, waiting := queued + [Notice(r, status)], waiting + [Notice(r, status)];
          alerted := status == REAUTHORIZE;
        }
      }
      if status == CONNECTED || status == DISABLED {
        alerted := false;
      }
      rows := rows[r := rows[r].(alerted := alerted)];
    }

    method SaveOperationSettings(enable: bool, entered: bool, clear: bool)
      modifies this
      ensures Now() == Act(old(Now()), Save(enable, entered, clear))
    {
      enabled := enable;
      if clear {
        endpoint, enabled := false, false;
      }
      if entered {
        endpoint := true;
      }
      rows := map r | r in rows :: rows[r].(alerted := false);
      waiting := [];
    }
  }

  // ---- Histories --------------------------------------------------------------------

  function After(s: State, acts: seq<Action>): State
    decreases |acts|
  {
    if acts == [] then s else Act(After(s, acts[..|acts| - 1]), acts[|acts| - 1])
  }

  /** The state the k-th action meets. */
  function Before(s: State, acts: seq<Action>, k: nat): State
    requires k <= |acts|
  {
    After(s, acts[..k])
  }

  lemma BeforeNext(s: State, acts: seq<Action>, k: nat)
    requires k < |acts|
    ensures Before(s, acts, k + 1) == Act(Before(s, acts, k), acts[k])
  {
    assert acts[..k + 1][..k] == acts[..k];
  }

  /** The k-th action queued an alert for `r`, or a recovery message. */
  predicate AlertAt(s: State, acts: seq<Action>, k: nat, r: Resource)
    requires k < |acts|
  {
    acts[k] == Saw(r, REAUTHORIZE) && Queues(Before(s, acts, k), acts[k])
  }

  predicate RecoveryAt(s: State, acts: seq<Action>, k: nat, r: Resource)
    requires k < |acts|
  {
    acts[k] == Saw(r, CONNECTED) && Queues(Before(s, acts, k), acts[k])
  }

  /** An observation that settles an alert of `r`, or new settings. */
  predicate Settles(a: Action, r: Resource) {
    a.Save? || a == Saw(r, CONNECTED) || a == Saw(r, DISABLED)
  }

  lemma {:induction false} AlertedStays(s: State, acts: seq<Action>, i: nat, j: nat, r: Resource)
    requires i <= j <= |acts| && Alerted(Before(s, acts, i), r)
    requires forall k | i <= k < j :: !Settles(acts[k], r)
    ensures Alerted(Before(s, acts, j), r)
    decreases j
  {
    if i < j {
      AlertedStays(s, acts, i, j - 1, r);
      BeforeNext(s, acts, j - 1);
    }
  }

  /** Between two alerts of a resource it was seen connected or disabled, or the settings were
      saved: transient statuses never cause a repeat. */
  lemma AlertsAreSeparated(s: State, acts: seq<Action>, i: nat, j: nat, r: Resource)
    requires i < j < |acts| && AlertAt(s, acts, i, r) && AlertAt(s, acts, j, r)
    ensures exists k :: i < k < j && Settles(acts[k], r)
  {
    if forall k | i < k < j :: !Settles(acts[k], r) {
      BeforeNext(s, acts, i);
      AlertedStays(s, acts, i + 1, j, r);
    }
  }

  /** An alert is outstanding after a step because it was queued there, or was before and is
      not settled by it. */
  lemma AlertedByAct(s: State, a: Action, r: Resource)
    requires Alerted(Act(s, a), r)
    ensures (a == Saw(r, REAUTHORIZE) && Queues(s, a)) || (Alerted(s, r) && !Settles(a, r))
  {
  }

  lemma {:induction false} AlertedHasCause(s: State, acts: seq<Action>, j: nat, r: Resource) returns (i: nat)
    requires Initial(s) && j <= |acts| && Alerted(Before(s, acts, j), r)
    ensures i < j && AlertAt(s, acts, i, r)
    ensures forall k | i < k < j :: !Settles(acts[k], r) && !AlertAt(s, acts, k, r) && !RecoveryAt(s, acts, k, r)
    decreases j
  {
    BeforeNext(s, acts, j - 1);
    AlertedByAct(Before(s, acts, j - 1), acts[j - 1], r);
    if AlertAt(s, acts, j - 1, r) {
      i := j - 1;
    } else {
      i := AlertedHasCause(s, acts, j - 1, r);
    }
  }

  /** Each recovery message answers an alert: the last message queued for the resource before it
      is an alert, and nothing settled that alert in between. */
  lemma RecoveryAnswersAlert(s: State, acts: seq<Action>, j: nat, r: Resource) returns (i: nat)
    requires Initial(s) && j < |acts| && RecoveryAt(s, acts, j, r)
    ensures i < j && AlertAt(s, acts, i, r)
    ensures forall k | i < k < j :: !Settles(acts[k], r) && !AlertAt(s, acts, k, r) && !RecoveryAt(s, acts, k, r)
  {
    i := AlertedHasCause(s, acts, j, r);
  }

  /** No alert is lost either: when the webhook is ready, a resource seen to need authorization
      has an alert queued that nothing has settled since. */
  lemma AlertOutstanding(s: State, acts: seq<Action>, j: nat, r: Resource) returns (i: nat)
    requires Initial(s) && j < |acts| && acts[j] == Saw(r, REAUTHORIZE) && Ready(Before(s, acts, j))
    ensures i <= j && AlertAt(s, acts, i, r)
    ensures forall k | i < k <= j :: !Settles(acts[k], r)
  {
    if AlertAt(s, acts, j, r) {
      i := j;
    } else {
      i := AlertedHasCause(s, acts, j, r);
    }
  }

  // ---- What is queued, said by the history alone ------------------------------------

  /** The last save left the webhook on. */
  ghost predicate TurnedOn(acts: seq<Action>) {
    exists k | 0 <= k < |acts| ::
      acts[k].Save? && acts[k].enable && !acts[k].clear && forall j | k < j < |acts| :: !acts[j].Save?
  }

  /** Some save entered an endpoint, and none since cleared it without entering another. */
  ghost predicate EndpointKnown(acts: seq<Action>) {
    exists k | 0 <= k < |acts| ::
      acts[k].Save? && acts[k].entered && forall j | k < j < |acts| && acts[j].Save? && acts[j].clear :: acts[j].entered
  }

  lemma TurnedOnNext(acts: seq<Action>, a: Action)
    ensures TurnedOn(acts + [a]) <==> if a.Save? then a.enable && !a.clear else TurnedOn(acts)
  {
    var all := acts + [a];
    assert all[|acts|] == a && forall k | 0 <= k < |acts| :: all[k] == acts[k];
    if TurnedOn(acts) && !a.Save? {
      var k :| 0 <= k < |acts| && acts[k].Save? && acts[k].enable && !acts[k].clear
               && forall j | k < j < |acts| :: !acts[j].Save?;
      assert all[k].Save? && all[k].enable && !all[k].clear;
    }
  }

  lemma EndpointNext(acts: seq<Action>, a: Action)
    ensures EndpointKnown(acts + [a]) <==>
      if a.Save? then a.entered || (EndpointKnown(acts) && !a.clear) else EndpointKnown(acts)
  {
    var all := acts + [a];
    assert all[|acts|] == a && forall k | 0 <= k < |acts| :: all[k] == acts[k];
    if EndpointKnown(acts) && !(a.Save? && a.clear && !a.entered) {
      var k :| 0 <= k < |acts| && acts[k].Save? && acts[k].entered
               && forall j | k < j < |acts| && acts[j].Save? && acts[j].clear :: acts[j].entered;
      assert all[k].Save? && all[k].entered;
    }
    if EndpointKnown(all) && !(a.Save? && a.entered) {
      var k :| 0 <= k < |all| && all[k].Save? && all[k].entered
               && forall j | k < j < |all| && all[j].Save? && all[j].clear :: all[j].entered;
      assert acts[k].Save? && acts[k].entered;
    }
  }

  lemma {:induction false} SettingsExactly(s: State, acts: seq<Action>)
    requires Initial(s) && !s.enabled && !s.endpoint
    ensures After(s, acts).enabled <==> TurnedOn(acts)
    ensures After(s, acts).endpoint <==> EndpointKnown(acts)
    decreases |acts|
  {
    if acts != [] {
      var n := |acts| - 1;
      assert acts == acts[..n] + [acts[n]];
      SettingsExactly(s, acts[..n]);
      TurnedOnNext(acts[..n], acts[n]);
      EndpointNext(acts[..n], acts[n]);
    }
  }

  /** An alert of `r` is out: at some point it was seen to need authorization while the webhook was
      on with an endpoint, and nothing has settled that since. */
  ghost predicate Outstanding(acts: seq<Action>, r: Resource) {
    exists k | 0 <= k < |acts| ::
      && acts[k] == Saw(r, REAUTHORIZE) && TurnedOn(acts[..k]) && EndpointKnown(acts[..k])
      && forall j | k < j < |acts| :: !Settles(acts[j], r)
  }

  lemma OutstandingNext(acts: seq<Action>, a: Action, r: Resource)
    ensures Outstanding(acts + [a], r) <==>
      || (a == Saw(r, REAUTHORIZE) && TurnedOn(acts) && EndpointKnown(acts))
      || (Outstanding(acts, r) && !Settles(a, r))
  {
    var all := acts + [a];
    assert all[..|acts|] == acts && all[|acts|] == a;
    assert forall k | 0 <= k < |acts| :: all[k] == acts[k] && all[..k] == acts[..k];
    if Outstanding(acts, r) && !Settles(a, r) {
      var k :| 0 <= k < |acts| && acts[k] == Saw(r, REAUTHORIZE) && TurnedOn(acts[..k]) && EndpointKnown(acts[..k])
               && forall j | k < j < |acts| :: !Settles(acts[j], r);
      assert all[k] == Saw(r, REAUTHORIZE) && all[..k] == acts[..k];
    }
    if a == Saw(r, REAUTHORIZE) && TurnedOn(acts) && EndpointKnown(acts) {
      assert all[|acts|] == Saw(r, REAUTHORIZE) && all[..|acts|] == acts;
    }
    if Outstanding(all, r) {
      var k :| 0 <= k < |all| && all[k] == Saw(r, REAUTHORIZE) && TurnedOn(all[..k]) && EndpointKnown(all[..k])
               && forall j | k < j < |all| :: !Settles(all[j], r);
      if k < |acts| {
        assert acts[k] == Saw(r, REAUTHORIZE) && all[..k] == acts[..k];
        assert !Settles(all[|acts|], r);
      }
    }
  }

  lemma {:induction false} AlertedExactly(s: State, acts: seq<Action>, r: Resource)
    requires Initial(s) && !s.enabled && !s.endpoint
    ensures Alerted(After(s, acts), r) <==> Outstanding(acts, r)
    decreases |acts|
  {
    if acts != [] {
      var n := |acts| - 1;
      assert acts == acts[..n] + [acts[n]];
      AlertedExactly(s, acts[..n], r);
      SettingsExactly(s, acts[..n]);
      OutstandingNext(acts[..n], acts[n], r);
    }
  }

  /** An observation queues one message for its resource, or none: an alert when authorization is
      needed and none is out, a recovery when it is connected and one is; and that only while the
      webhook is on with an endpoint. */
  lemma QueuedExactly(s: State, acts: seq<Action>, r: Resource, status: string)
    requires Initial(s) && !s.enabled && !s.endpoint
    ensures After(s, acts + [Saw(r, status)]).queued == After(s, acts).queued +
      if TurnedOn(acts) && EndpointKnown(acts)
        && ((status == REAUTHORIZE && !Outstanding(acts, r)) || (status == CONNECTED && Outstanding(acts, r)))
      then [Notice(r, status)] else []
  {
    var all := acts + [Saw(r, status)];
    assert all[..|all| - 1] == acts;
    AlertedExactly(s, acts, r);
    SettingsExactly(s, acts);
  }

  /** How many messages had been queued when the settings were last saved. */
  function QueuedBeforeSave(s: State, acts: seq<Action>): nat
    decreases |acts|
  {
    if acts == [] then 0
    else
      var init := acts[..|acts| - 1];
      if acts[|acts| - 1].Save? then |After(s, init).queued| else QueuedBeforeSave(s, init)
  }

  /** No message of before a save is left to be sent to the new destination, and none queued since
      is lost by it. */
  lemma {:induction false} WaitingSinceSave(s: State, acts: seq<Action>)
    requires Initial(s)
    ensures QueuedBeforeSave(s, acts) <= |After(s, acts).queued|
    ensures After(s, acts).waiting == After(s, acts).queued[QueuedBeforeSave(s, acts)..]
    decreases |acts|
  {
    if acts != [] {
      WaitingSinceSave(s, acts[..|acts| - 1]);
    }
  }

  // ---- A settings save inside an observation ----------------------------------------

  /** The writes of Observe, with the status and the flag its SELECT has read. */
  function Write(s: State, r: Resource, status: string, previous: string, alerted: bool): State {
    var queues := Ready(s) && ((status == REAUTHORIZE && !alerted) || (status == CONNECTED && alerted));
    var left := status != CONNECTED && status != DISABLED && (queues || alerted);
    State(s.rows[r := Row(status, left)], s.enabled, s.endpoint,
          if previous != status then s.events + [Notice(r, status)] else s.events,
          if queues then s.queued + [Notice(r, status)] else s.queued,
          if queues then s.waiting + [Notice(r, status)] else s.waiting)
  }

  lemma WriteIsAct(s: State, r: Resource, status: string)
    ensures Write(s, r, status, Previous(s, r), Alerted(s, r)) == Act(s, Saw(r, status))
  {
  }

  /** SaveOperationSettings takes no lock of Observe.  Committed between its SELECT and its writes, it
      is as if the observation came after the save exactly when no alert was outstanding, or the
      resource was seen disabled, or seen connected with the webhook off. */
  lemma OverlapExactly(s: State, r: Resource, status: string, save: Action)
    requires save.Save?
    ensures var saved := Act(s, save);
      Write(saved, r, status, Previous(s, r), Alerted(s, r)) == Act(saved, Saw(r, status)) <==>
        !Alerted(s, r) || status == DISABLED || (status == CONNECTED && !Ready(saved))
  {
    var saved := Act(s, save);
    WriteIsAct(saved, r, status);
    assert Previous(saved, r) == Previous(s, r) && !Alerted(saved, r);
    var stale, serial := Write(saved, r, status, Previous(s, r), Alerted(s, r)), Act(saved, Saw(r, status));
    assert stale.rows[r].alerted == serial.rows[r].alerted && |stale.queued| == |serial.queued| <==> stale == serial;
  }

  /** A message goes wrong by it exactly when an alert was outstanding, the webhook is ready after the
      save, and the resource was not seen disabled: then a recovery is announced alone, at once or,
      with nothing queued since the save, by the next observation that finds it connected. */
  lemma LoneRecoveryExactly(s: State, r: Resource, status: string, save: Action)
    requires save.Save?
    ensures var saved := Act(s, save);
      var mid := Write(saved, r, status, Previous(s, r), Alerted(s, r));
      (|| (status == CONNECTED && mid.queued != s.queued)
       || (mid.queued == s.queued && Queues(mid, Saw(r, CONNECTED))))
      <==> Alerted(s, r) && status != DISABLED && Ready(saved)
  {
    var mid := Write(Act(s, save), r, status, Previous(s, r), Alerted(s, r));
    assert |mid.queued| == |s.queued| || |mid.queued| == |s.queued| + 1;
  }

  // ---- The event log ----------------------------------------------------------------

  /** The statuses observed for `r`, in order. */
  function Seen(acts: seq<Action>, r: Resource): seq<string>
    decreases |acts|
  {
    if acts == [] then []
    else
      var a := acts[|acts| - 1];
      Seen(acts[..|acts| - 1], r) + if a.Saw? && a.resource == r then [a.status] else []
  }

  function Logged(events: seq<Notice>, r: Resource): seq<string>
    decreases |events|
  {
    if events == [] then []
    else
      var e := events[|events| - 1];
      Logged(events[..|events| - 1], r) + if e.resource == r then [e.status] else []
  }

  function Last(statuses: seq<string>): string {
    if statuses == [] then "" else statuses[|statuses| - 1]
  }

  /** Consecutive repeats removed; a leading empty status is one. */
  function Dedupe(statuses: seq<string>): seq<string>
    decreases |statuses|
  {
    if statuses == [] then []
    else
      var init, last := statuses[..|statuses| - 1], statuses[|statuses| - 1];
      if last == Last(init) then Dedupe(init) else Dedupe(init) + [last]
  }

  lemma LoggedAppend(events: seq<Notice>, e: Notice, r: Resource)
    ensures Logged(events + [e], r) == Logged(events, r) + if e.resource == r then [e.status] else []
  {
    assert (events + [e])[..|events|] == events;
  }

  lemma DedupeAppend(statuses: seq<string>, status: string)
    ensures Dedupe(statuses + [status]) == Dedupe(statuses) + if status == Last(statuses) then [] else [status]
  {
    assert (statuses + [status])[..|statuses|] == statuses;
  }

  lemma LoggedByAct(s: State, a: Action, r: Resource)
    ensures Logged(Act(s, a).events, r) ==
            Logged(s.events, r) + if a.Saw? && a.resource == r && a.status != Previous(s, r) then [a.status] else []
    ensures Previous(Act(s, a), r) == if a.Saw? && a.resource == r then a.status else Previous(s, r)
  {
    if a.Saw? {
      LoggedAppend(s.events, Notice(a.resource, a.status), r);
    }
  }

  /** The events logged for a resource are its observed statuses with repeats removed. */
  lemma {:induction false} LogIsDeduped(s: State, acts: seq<Action>, r: Resource)
    requires Initial(s)
    ensures Logged(After(s, acts).events, r) == Dedupe(Seen(acts, r))
    ensures Previous(After(s, acts), r) == Last(Seen(acts, r))
    decreases |acts|
  {
    if acts != [] {
      var n := |acts| - 1;
      LogIsDeduped(s, acts[..n], r);
      LoggedByAct(After(s, acts[..n]), acts[n], r);
      if acts[n].Saw? && acts[n].resource == r {
        DedupeAppend(Seen(acts[..n], r), acts[n].status);
      } else {
        assert Seen(acts, r) == Seen(acts[..n], r);
      }
    }
  }
}
