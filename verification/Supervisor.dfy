/** The fleet supervisor: when a gateway is restarted (deploy/hermes-fleet-supervisor.py). */
module Supervisor {
  const GRACE := 120.0
  const COOLDOWN := 300.0
  const WINDOW := 600.0
  const MAX_RESTARTS := 5

  type Name = string
  type Time = real

  /** What is remembered of one profile. */
  datatype Profile = Profile(failures: nat, history: seq<Time>, grace: Time)

  const NEW_PROFILE := Profile(0, [], 0.0)

  datatype Service = Disabled | Inactive | Active(healthy: bool)

  /** What a restart would meet: systemd already reviving the service, or a command that works or not. */
  datatype Attempt = Reviving | Command(ok: bool)

  /** One pass over a profile: the time of the round, what is seen, and the time and fate of a
      restart, should one be asked for. */
  datatype Look = Look(now: Time, service: Service, at: Time, attempt: Attempt)

  datatype Verdict = Suppressed | Cooling | Skipped | Broken | Restarted

  function Prune(history: seq<Time>, now: Time): seq<Time> {
    if history != [] && now - history[0] > WINDOW then Prune(history[1..], now) else history
  }

  function Judge(history: seq<Time>, at: Time, attempt: Attempt): Verdict {
    if |history| >= MAX_RESTARTS then Suppressed
    else if history != [] && at - history[|history| - 1] < COOLDOWN then Cooling
    else Outcome(attempt)
  }

  function Outcome(attempt: Attempt): Verdict {
    match attempt
    case Reviving => Skipped
    case Command(ok) => if ok then Restarted else Broken
  }

  function Restart(p: Profile, at: Time, attempt: Attempt): Profile {
    var history := Prune(p.history, at);
    if Judge(history, at, attempt) == Restarted then Profile(0, history + [at], at + GRACE)
    else p.(history := history)
  }

  /** A failing health result: the service runs, its grace is over, and it is not healthy. */
  predicate Fails(p: Profile, look: Look) {
    look.service == Active(false) && p.grace <= look.now
  }

  /** Whether restart is called. */
  predicate Asks(p: Profile, look: Look) {
    look.service == Inactive || (Fails(p, look) && p.failures >= 1)
  }

  function Observe(p: Profile, look: Look): Profile {
    match look.service
    case Disabled => p.(failures := 0)
    case Inactive => Restart(p, look.at, look.attempt)
    case Active(healthy) =>
      if look.now < p.grace then p
      else if healthy then p.(failures := 0)
      else
        var q := p.(failures := p.failures + 1);
        if q.failures >= 2 then Restart(q, look.at, look.attempt) else q
  }

  // ---- The supervisor ---------------------------------------------------------------

  class Fleet {
    var failures: map<Name, nat>
    var history: map<Name, seq<Time>>
    var grace: map<Name, Time>

    constructor ()
      ensures forall n :: ProfileOf(n) == NEW_PROFILE
    {
      failures, history, grace := map[], map[], map[];
    }

    /** The three dictionaries have defaults. */
    function ProfileOf(n: Name): Profile
      reads this
    {
      Profile(if n in failures then failures[n] else 0,
              if n in history then history[n] else [],
              if n in grace then grace[n] else 0.0)
    }

    method RestartProfile(n: Name, now: Time, attempt: Attempt)
      modifies this
      ensures ProfileOf(n) == Restart(old(ProfileOf(n)), now, attempt)
      ensures forall m | m != n :: ProfileOf(m) == old(ProfileOf(m))
    {
      var recent := ProfileOf(n).history;
      ghost var was := recent;
      while |recent| > 0 && now - recent[0] > WINDOW
        invariant Prune(recent, now) == Prune(was, now)
        decreases |recent|
      {
        recent := recent[1..];
      }
      history := history[n := recent];
      if |recent| >= MAX_RESTARTS {
        return;
      }
      if |recent| > 0 && now - recent[|recent| - 1] < COOLDOWN {
        return;
      }
      if attempt.Reviving? {
        return;
      }
      if attempt.ok {
        history := history[n := recent + [now]];
        grace := grace[n := now + GRACE];
        failures := failures[n := 0];
      }
    }

    /** The body of the supervisor's inner loop. */
    method Check(n: Name, look: Look)
      modifies this
      ensures ProfileOf(n) == Observe(old(ProfileOf(n)), look)
      ensures forall m | m != n :: ProfileOf(m) == old(ProfileOf(m))
    {
      if look.service.Disabled? {
        failures := failures[n := 0];
        return;
      }
      if look.service.Inactive? {
        RestartProfile(n, look.at, look.attempt);
        return;
      }
      if look.now < ProfileOf(n).grace {
        return;
      }
      if look.service.healthy {
        failures := failures[n := 0];
        return;
      }
      failures := failures[n := ProfileOf(n).failures + 1];
      if failures[n] >= 2 {
        RestartProfile(n, look.at, look.attempt);
      }
    }

    /** One round: every profile is looked at once, and no profile's past touches another's. */
    method Round(profiles: seq<Name>, looks: seq<Look>)
      requires |looks| == |profiles|
      requires forall i, j | 0 <= i < j < |profiles| :: profiles[i] != profiles[j]
      modifies this
      ensures forall i | 0 <= i < |profiles| :: ProfileOf(profiles[i]) == Observe(old(ProfileOf(profiles[i])), looks[i])
      ensures forall m | m !in profiles :: ProfileOf(m) == old(ProfileOf(m))
    {
      for k := 0 to |profiles|
        invariant forall i | 0 <= i < k :: ProfileOf(profiles[i]) == Observe(old(ProfileOf(profiles[i])), looks[i])
        invariant forall i | k <= i < |profiles| :: ProfileOf(profiles[i]) == old(ProfileOf(profiles[i]))
        invariant forall m | m !in profiles :: ProfileOf(m) == old(ProfileOf(m))
      {
        Check(profiles[k], looks[k]);
      }
    }
  }

  // ---- Any run ----------------------------------------------------------------------

  function After(looks: seq<Look>): Profile
    decreases |looks|
  {
    if looks == [] then NEW_PROFILE else Observe(After(looks[..|looks| - 1]), looks[|looks| - 1])
  }

  /** The look restarts the profile. */
  predicate Restarts(p: Profile, look: Look) {
    Asks(p, look) && Judge(Prune(p.history, look.at), look.at, look.attempt) == Restarted
  }

  /** Every restart ever made, with nothing pruned. */
  function Recorded(looks: seq<Look>): seq<Time>
    decreases |looks|
  {
    if looks == [] then []
    else
      var n := |looks| - 1;
      Recorded(looks[..n]) + if Restarts(After(looks[..n]), looks[n]) then [looks[n].at] else []
  }

  /** The clock never steps back. */
  predicate Ordered(looks: seq<Look>) {
    && (forall i | 0 <= i < |looks| :: looks[i].now <= looks[i].at)
    && (forall i, j | 0 <= i < j < |looks| :: looks[i].at <= looks[j].now)
  }

  predicate Spaced(restarts: seq<Time>) {
    forall i, j | 0 <= i < j < |restarts| :: restarts[j] - restarts[i] >= COOLDOWN
  }

  /** The restarts inside the closed window. */
  function Within(restarts: seq<Time>, from: Time, to: Time): seq<Time>
    decreases |restarts|
  {
    if restarts == [] then []
    else
      var n := |restarts| - 1;
      Within(restarts[..n], from, to) + if from <= restarts[n] <= to then [restarts[n]] else []
  }

  /** The verdict a supervisor would reach that never forgets a restart. */
  function FullJudge(restarts: seq<Time>, at: Time, attempt: Attempt): Verdict {
    if |Within(restarts, at - WINDOW, at)| >= MAX_RESTARTS then Suppressed
    else if restarts != [] && at - restarts[|restarts| - 1] < COOLDOWN then Cooling
    else Outcome(attempt)
  }

  /** `history` is what is left of `restarts` when some of those too old at `t` are dropped. */
  ghost predicate Kept(history: seq<Time>, restarts: seq<Time>, t: Time) {
    && |history| <= |restarts|
    && history == restarts[|restarts| - |history|..]
    && (forall i | 0 <= i < |restarts| - |history| :: t - restarts[i] > WINDOW)
    && (forall i | 0 <= i < |restarts| :: restarts[i] <= t)
    && Spaced(restarts)
  }

  lemma {:induction false} PruneKeeps(history: seq<Time>, restarts: seq<Time>, t: Time, now: Time)
    requires Kept(history, restarts, t) && t <= now
    ensures Kept(Prune(history, now), restarts, now)
    ensures var h := Prune(history, now); h != [] ==> now - h[0] <= WINDOW
    decreases |history|
  {
    if history != [] && now - history[0] > WINDOW {
      PruneKeeps(history[1..], restarts, now, now);
    }
  }

  lemma {:induction false} WithinSplits(a: seq<Time>, b: seq<Time>, from: Time, to: Time)
    requires forall i | 0 <= i < |a| :: a[i] < from
    requires forall i | 0 <= i < |b| :: from <= b[i] <= to
    ensures Within(a + b, from, to) == b
    decreases |a| + |b|
  {
    if b != [] {
      var n := |b| - 1;
      assert (a + b)[..|a + b| - 1] == a + b[..n];
      WithinSplits(a, b[..n], from, to);
    } else if a != [] {
      var n := |a| - 1;
      assert (a + b)[..|a + b| - 1] == a[..n] + b;
      WithinSplits(a[..n], b, from, to);
    }
  }

  /** After pruning, what is left is exactly what the window holds. */
  lemma PrunedIsWindow(history: seq<Time>, restarts: seq<Time>, now: Time)
    requires Kept(history, restarts, now) && (history != [] ==> now - history[0] <= WINDOW)
    ensures history == Within(restarts, now - WINDOW, now)
  {
    var k := |restarts| - |history|;
    assert restarts == restarts[..k] + history;
    forall i | 0 <= i < |history| ensures now - WINDOW <= history[i] <= now {
      assert history[i] == restarts[k + i];
      assert i > 0 ==> restarts[k + i] - restarts[k] >= COOLDOWN;
    }
    WithinSplits(restarts[..k], history, now - WINDOW, now);
  }

  /** A cooldown that has passed since the last restart kept has passed since every restart. */
  lemma CooledAll(history: seq<Time>, restarts: seq<Time>, now: Time)
    requires Kept(history, restarts, now)
    ensures (history != [] && now - history[|history| - 1] < COOLDOWN)
      == (restarts != [] && now - restarts[|restarts| - 1] < COOLDOWN)
    ensures !(restarts != [] && now - restarts[|restarts| - 1] < COOLDOWN) ==> forall i | 0 <= i < |restarts| ::
      now - restarts[i] >= COOLDOWN
  {
    var last := |restarts| - 1;
    assert forall i | 0 <= i < last :: restarts[last] - restarts[i] >= COOLDOWN;
  }

  /** The pruned history gives the answers of the full one. */
  lemma SameVerdict(history: seq<Time>, restarts: seq<Time>, t: Time, at: Time, attempt: Attempt)
    requires Kept(history, restarts, t) && t <= at
    ensures Prune(history, at) == Within(restarts, at - WINDOW, at)
    ensures Judge(Prune(history, at), at, attempt) == FullJudge(restarts, at, attempt)
  {
    PruneKeeps(history, restarts, t, at);
    PrunedIsWindow(Prune(history, at), restarts, at);
    CooledAll(Prune(history, at), restarts, at);
  }

  function Clock(looks: seq<Look>, start: Time): Time {
    if looks == [] then start else looks[|looks| - 1].at
  }

  /** What a run keeps: the history is the pruned list of all restarts, which are spaced. */
  lemma {:induction false} HistoryKept(looks: seq<Look>, start: Time)
    requires Ordered(looks)
    ensures Kept(After(looks).history, Recorded(looks), Clock(looks, start))
    decreases |looks|
  {
    if looks != [] {
      var n := |looks| - 1;
      var look := looks[n];
      HistoryKept(looks[..n], look.at);
      assert Clock(looks[..n], look.at) <= look.at;
      HistoryStep(After(looks[..n]), Recorded(looks[..n]), Clock(looks[..n], look.at), look);
    }
  }

  lemma KeptPush(history: seq<Time>, restarts: seq<Time>, now: Time)
    requires Kept(history, restarts, now) && forall i | 0 <= i < |restarts| :: now - restarts[i] >= COOLDOWN
    ensures Kept(history + [now], restarts + [now], now)
  {
    var k := |restarts| - |history|;
    assert (restarts + [now])[k..] == restarts[k..] + [now];
  }

  lemma KeptLater(history: seq<Time>, restarts: seq<Time>, t: Time, now: Time)
    requires Kept(history, restarts, t) && t <= now
    ensures Kept(history, restarts, now)
  {
  }

  /** A look that asks for a restart prunes; no other touches the history. */
  lemma ObserveHistory(p: Profile, look: Look)
    ensures !Asks(p, look) ==> Observe(p, look).history == p.history
    ensures Asks(p, look) ==>
      Observe(p, look).history == Prune(p.history, look.at) + if Restarts(p, look) then [look.at] else []
  {
  }

  lemma HistoryStep(p: Profile, restarts: seq<Time>, t: Time, look: Look)
    requires Kept(p.history, restarts, t) && t <= look.at
    ensures Kept(Observe(p, look).history, restarts + if Restarts(p, look) then [look.at] else [], look.at)
  {
    ObserveHistory(p, look);
    assert restarts + [] == restarts;
    if Asks(p, look) {
      var h := Prune(p.history, look.at);
      assert h + [] == h;
      PruneKeeps(p.history, restarts, t, look.at);
      if Restarts(p, look) {
        CooledAll(h, restarts, look.at);
        KeptPush(h, restarts, look.at);
      }
    } else {
      KeptLater(p.history, restarts, t, look.at);
    }
  }

  /** At every point of every run with a clock that never steps back, the pruned deque answers the
      window and cooldown questions as the full restart history would. */
  lemma PrunedAnswersAsFull(looks: seq<Look>, look: Look)
    requires Ordered(looks + [look])
    ensures var p := After(looks);
      && Prune(p.history, look.at) == Within(Recorded(looks), look.at - WINDOW, look.at)
      && Judge(Prune(p.history, look.at), look.at, look.attempt) == FullJudge(Recorded(looks), look.at, look.attempt)
  {
    OrderedPrefix(looks, look);
    HistoryKept(looks, look.at);
    SameVerdict(After(looks).history, Recorded(looks), Clock(looks, look.at), look.at, look.attempt);
  }

  lemma OrderedPrefix(looks: seq<Look>, look: Look)
    requires Ordered(looks + [look])
    ensures Ordered(looks) && Clock(looks, look.at) <= look.at
  {
    var all := looks + [look];
    assert forall i | 0 <= i < |looks| :: looks[i] == all[i];
    assert all[|looks|] == look;
  }

  // ---- How often --------------------------------------------------------------------

  lemma {:induction false} WithinLater(restarts: seq<Time>, from: Time, to: Time, now: Time)
    requires forall i | 0 <= i < |restarts| :: now - restarts[i] >= COOLDOWN
    ensures forall i | 0 <= i < |Within(restarts, from, to)| :: now - Within(restarts, from, to)[i] >= COOLDOWN
    decreases |restarts|
  {
    if restarts != [] {
      WithinLater(restarts[..|restarts| - 1], from, to, now);
    }
  }

  lemma {:induction false} WithinMeaning(restarts: seq<Time>, from: Time, to: Time)
    requires Spaced(restarts)
    ensures var w := Within(restarts, from, to);
      Spaced(w) && forall i | 0 <= i < |w| :: from <= w[i] <= to
    decreases |restarts|
  {
    if restarts != [] {
      var n := |restarts| - 1;
      WithinMeaning(restarts[..n], from, to);
      WithinLater(restarts[..n], from, to, restarts[n]);
    }
  }

  lemma FourSpan(w: seq<Time>)
    requires Spaced(w)
    ensures |w| >= 4 ==> w[|w| - 1] - w[0] >= 3.0 * COOLDOWN
  {
    assert |w| >= 4 ==> w[1] - w[0] >= COOLDOWN && w[2] - w[1] >= COOLDOWN && w[3] - w[2] >= COOLDOWN;
    assert |w| > 4 ==> w[|w| - 1] - w[3] >= COOLDOWN;
  }

  lemma SpacedInWindow(restarts: seq<Time>, from: Time)
    requires Spaced(restarts)
    ensures |Within(restarts, from, from + WINDOW)| <= 3
  {
    WithinMeaning(restarts, from, from + WINDOW);
    FourSpan(Within(restarts, from, from + WINDOW));
  }

  /** Restarts are at least 300 s apart, and any closed window of 600 s holds at most three. */
  lemma RestartsAreRare(looks: seq<Look>, from: Time)
    requires Ordered(looks)
    ensures Spaced(Recorded(looks))
    ensures |Within(Recorded(looks), from, from + WINDOW)| <= 3
  {
    HistoryKept(looks, 0.0);
    SpacedInWindow(Recorded(looks), from);
  }

  // ---- Any clock --------------------------------------------------------------------

  /** What pruning and the cooldown make of the deque whatever the clock does. */
  ghost predicate Tight(history: seq<Time>) {
    Spaced(history) && (history != [] ==> history[|history| - 1] - history[0] <= WINDOW)
  }

  lemma TightIsShort(history: seq<Time>)
    requires Tight(history)
    ensures |history| <= 3
  {
    FourSpan(history);
  }

  lemma {:induction false} PruneTight(history: seq<Time>, now: Time)
    requires Tight(history)
    ensures var h := Prune(history, now);
      && Tight(h) && |h| <= |history| && h == history[|history| - |h|..] && (h != [] ==> now - h[0] <= WINDOW)
    ensures Prune(history, now) == [] <==> history == [] || now - history[|history| - 1] > WINDOW
    decreases |history|
  {
    if history != [] && now - history[0] > WINDOW {
      assert forall i | 0 < i < |history| :: history[i] >= history[0];
      PruneTight(history[1..], now);
    }
  }

  lemma TightPush(history: seq<Time>, now: Time)
    requires Tight(history)
      && (history != [] ==> now - history[0] <= WINDOW && now - history[|history| - 1] >= COOLDOWN)
    ensures Tight(history + [now])
  {
    var last := |history| - 1;
    assert forall i | 0 <= i < last :: history[last] - history[i] >= COOLDOWN;
  }

  /** The deque is the end of the full history. */
  ghost predicate EndOf(history: seq<Time>, restarts: seq<Time>) {
    |history| <= |restarts| && history == restarts[|restarts| - |history|..]
  }

  lemma EndPush(history: seq<Time>, restarts: seq<Time>, now: Time)
    requires EndOf(history, restarts)
    ensures EndOf(history + [now], restarts + [now])
  {
    var k := |restarts| - |history|;
    assert (restarts + [now])[k..] == restarts[k..] + [now];
  }

  lemma EndOfEnd(shorter: seq<Time>, history: seq<Time>, restarts: seq<Time>)
    requires EndOf(history, restarts) && EndOf(shorter, history)
    ensures EndOf(shorter, restarts)
  {
  }

  /** What a call of restart makes of the deque. */
  lemma AnyRestart(history: seq<Time>, restarts: seq<Time>, at: Time, attempt: Attempt)
    requires Tight(history) && EndOf(history, restarts)
    ensures var h := Prune(history, at);
      && Tight(h) && EndOf(h, restarts)
      && (Judge(h, at, attempt) == Restarted ==> Tight(h + [at]) && EndOf(h + [at], restarts + [at]))
  {
    var h := Prune(history, at);
    PruneTight(history, at);
    EndOfEnd(h, history, restarts);
    if Judge(h, at, attempt) == Restarted {
      TightPush(h, at);
      EndPush(h, restarts, at);
    }
  }

  lemma AnyStep(p: Profile, restarts: seq<Time>, look: Look)
    requires Tight(p.history) && EndOf(p.history, restarts)
    ensures Tight(Observe(p, look).history)
    ensures EndOf(Observe(p, look).history, restarts + if Restarts(p, look) then [look.at] else [])
  {
    ObserveHistory(p, look);
    AnyRestart(p.history, restarts, look.at, look.attempt);
    assert restarts + [] == restarts;
    assert Prune(p.history, look.at) + [] == Prune(p.history, look.at);
  }

  lemma {:induction false} AnyHistory(looks: seq<Look>)
    ensures Tight(After(looks).history) && EndOf(After(looks).history, Recorded(looks))
    decreases |looks|
  {
    if looks != [] {
      var n := |looks| - 1;
      AnyHistory(looks[..n]);
      AnyStep(After(looks[..n]), Recorded(looks[..n]), looks[n]);
    }
  }

  predicate Cools(history: seq<Time>, at: Time) {
    history != [] && at - history[|history| - 1] < COOLDOWN
  }

  lemma PrunedVerdict(history: seq<Time>, at: Time, attempt: Attempt)
    requires Tight(history)
    ensures |history| <= 3
    ensures Judge(Prune(history, at), at, attempt) == if Cools(Prune(history, at), at) then Cooling
      else Outcome(attempt)
  {
    TightIsShort(history);
    PruneTight(history, at);
  }

  /** Whatever the clock does, the deque holds at most three restarts, so the limit of five in a
      window is never reached: nothing is ever suppressed. */
  lemma NeverSuppressed(looks: seq<Look>, look: Look)
    ensures |After(looks).history| <= 3
    ensures Judge(Prune(After(looks).history, look.at), look.at, look.attempt) != Suppressed
  {
    AnyHistory(looks);
    PrunedVerdict(After(looks).history, look.at, look.attempt);
  }

  /** After the last restart and without another, a look asked for one more than the window later. */
  ghost predicate ForgottenAt(looks: seq<Look>, j: nat) {
    && j < |looks| && Asks(After(looks[..j]), looks[j])
    && Recorded(looks[..j]) == Recorded(looks) != []
    && looks[j].at - Last(Recorded(looks)) > WINDOW
  }

  ghost predicate Forgotten(looks: seq<Look>) {
    exists j :: ForgottenAt(looks, j)
  }

  function Last(restarts: seq<Time>): Time
    requires restarts != []
  {
    restarts[|restarts| - 1]
  }

  lemma {:induction false} RecordedGrows(looks: seq<Look>, j: nat)
    requires j <= |looks|
    ensures |Recorded(looks[..j])| <= |Recorded(looks)|
    ensures |Recorded(looks[..j])| == |Recorded(looks)| ==> Recorded(looks[..j]) == Recorded(looks)
    decreases |looks|
  {
    if j == |looks| {
      assert looks[..j] == looks;
    } else {
      assert looks[..|looks| - 1][..j] == looks[..j];
      RecordedGrows(looks[..|looks| - 1], j);
    }
  }

  /** The look forgets the last restart itself. */
  predicate Forgets(looks: seq<Look>, look: Look) {
    Asks(After(looks), look) && Recorded(looks) != [] && look.at - Last(Recorded(looks)) > WINDOW
  }

  lemma RecordedNext(looks: seq<Look>, look: Look, j: nat)
    requires !Restarts(After(looks), look) && j <= |looks|
    ensures (looks + [look])[..j] == looks[..j] && looks[..|looks|] == looks
    ensures Recorded(looks + [look]) == Recorded(looks)
  {
    assert (looks + [look])[..|looks|] == looks;
  }

  lemma ForgottenAtNext(looks: seq<Look>, look: Look, j: nat)
    requires !Restarts(After(looks), look)
    ensures ForgottenAt(looks + [look], j) <==> ForgottenAt(looks, j) || (j == |looks| && Forgets(looks, look))
  {
    if j <= |looks| {
      RecordedNext(looks, look, j);
    }
  }

  /** After a look that does not restart, the last restart is forgotten if it was before or is now. */
  lemma ForgottenNext(looks: seq<Look>, look: Look)
    requires !Restarts(After(looks), look)
    ensures Forgotten(looks + [look]) <==> Forgotten(looks) || Forgets(looks, look)
  {
    forall j: nat ensures ForgottenAt(looks + [look], j) <==>
      ForgottenAt(looks, j) || (j == |looks| && Forgets(looks, look)) {
      ForgottenAtNext(looks, look, j);
    }
    assert Forgets(looks, look) ==> ForgottenAt(looks + [look], |looks|);
  }

  lemma NothingForgottenYet(looks: seq<Look>, look: Look)
    requires Restarts(After(looks), look)
    ensures !Forgotten(looks + [look])
  {
    var all := looks + [look];
    assert all[..|looks|] == looks;
    forall j: nat | j < |all| ensures Recorded(all[..j]) != Recorded(all) {
      assert all[..j] == looks[..j];
      RecordedGrows(looks, j);
    }
  }

  lemma EmptyStep(looks: seq<Look>, look: Look)
    requires After(looks).history == [] <==> Recorded(looks) == [] || Forgotten(looks)
    requires Tight(After(looks).history) && EndOf(After(looks).history, Recorded(looks))
    ensures var all := looks + [look]; After(all).history == [] <==> Recorded(all) == [] || Forgotten(all)
  {
    var p, all := After(looks), looks + [look];
    assert all[..|looks|] == looks;
    assert After(all) == Observe(p, look);
    ObserveHistory(p, look);
    if Restarts(p, look) {
      NothingForgottenYet(looks, look);
    } else {
      PruneTight(p.history, look.at);
      RecordedNext(looks, look, 0);
      ForgottenNext(looks, look);
    }
  }

  /** The deque is empty exactly when nothing was restarted or the last restart was forgotten. */
  lemma {:induction false} EmptyExactly(looks: seq<Look>)
    ensures After(looks).history == [] <==> Recorded(looks) == [] || Forgotten(looks)
    decreases |looks|
  {
    if looks != [] {
      var n := |looks| - 1;
      assert looks == looks[..n] + [looks[n]];
      EmptyExactly(looks[..n]);
      AnyHistory(looks[..n]);
      EmptyStep(looks[..n], looks[n]);
    }
  }

  /** In every run, under any clock, the deque and the full history disagree on the cooldown exactly
      when a look asked for a restart more than 600 s after the last one and yet this look comes
      less than 300 s after it. */
  lemma CooldownDiffersExactly(looks: seq<Look>, look: Look)
    ensures Cools(Prune(After(looks).history, look.at), look.at) != Cools(Recorded(looks), look.at) <==>
      Forgotten(looks) && look.at - Last(Recorded(looks)) < COOLDOWN
  {
    AnyHistory(looks);
    PruneTight(After(looks).history, look.at);
    EmptyExactly(looks);
  }

  /** The full history holds as many restarts as the limit. */
  predicate Crowded(restarts: seq<Time>, at: Time) {
    |Within(restarts, at - WINDOW, at)| >= MAX_RESTARTS
  }

  lemma VerdictsOf(history: seq<Time>, restarts: seq<Time>, at: Time, attempt: Attempt)
    requires Tight(history)
    ensures Judge(Prune(history, at), at, attempt) != FullJudge(restarts, at, attempt) <==>
      Crowded(restarts, at) || Cools(Prune(history, at), at) != Cools(restarts, at)
  {
    PrunedVerdict(history, at, attempt);
  }

  /** Then, or when the full history holds five in the window, the verdicts differ; never else. */
  lemma VerdictDiffersExactly(looks: seq<Look>, look: Look)
    ensures Judge(Prune(After(looks).history, look.at), look.at, look.attempt)
            != FullJudge(Recorded(looks), look.at, look.attempt) <==>
      Crowded(Recorded(looks), look.at) || (Forgotten(looks) && look.at - Last(Recorded(looks)) < COOLDOWN)
  {
    var history, restarts := After(looks).history, Recorded(looks);
    AnyHistory(looks);
    CooldownDiffersExactly(looks, look);
    VerdictsOf(history, restarts, look.at, look.attempt);
  }

  /** The window's limit comes before the cooldown, and that before systemd. */
  lemma VerdictOrder(history: seq<Time>, at: Time, attempt: Attempt)
    ensures Judge(history, at, attempt) == Suppressed <==> |history| >= 5
    ensures Judge(history, at, attempt) == Cooling <==> |history| < 5 && Cools(history, at)
    ensures Judge(history, at, attempt) == Skipped <==> |history| < 5 && !Cools(history, at) && attempt == Reviving
  {
  }

  /** When a restart is made, under any clock: it is asked for, systemd is not at it already, the
      command works, and the deque does not hold it back. */
  lemma RestartsExactly(looks: seq<Look>, look: Look)
    ensures Restarts(After(looks), look) <==>
      && Asks(After(looks), look) && look.attempt == Command(true)
      && !Cools(Prune(After(looks).history, look.at), look.at)
  {
    AnyHistory(looks);
    PrunedVerdict(After(looks).history, look.at, look.attempt);
  }

  /** With a clock that never steps back: every 300 s, and no later. */
  lemma RestartsOnTime(looks: seq<Look>, look: Look)
    requires Ordered(looks + [look])
    ensures Restarts(After(looks), look) <==>
      && Asks(After(looks), look) && look.attempt == Command(true)
      && (Recorded(looks) == [] || look.at - Last(Recorded(looks)) >= COOLDOWN)
  {
    OrderedPrefix(looks, look);
    HistoryKept(looks, look.at);
    PruneKeeps(After(looks).history, Recorded(looks), Clock(looks, look.at), look.at);
    CooledAll(Prune(After(looks).history, look.at), Recorded(looks), look.at);
    RestartsExactly(looks, look);
  }

  lemma GraceStep(p: Profile, look: Look)
    ensures Observe(p, look).grace == if Restarts(p, look) then look.at + 120.0 else p.grace
  {
  }

  /** The grace runs for 120 s from the last restart. */
  lemma {:induction false} GraceExactly(looks: seq<Look>)
    ensures After(looks).grace == if Recorded(looks) == [] then 0.0 else Last(Recorded(looks)) + 120.0
    decreases |looks|
  {
    if looks != [] {
      var n := |looks| - 1;
      var before, last := Recorded(looks[..n]), looks[n];
      GraceExactly(looks[..n]);
      GraceStep(After(looks[..n]), last);
      assert before + [] == before && Last(before + [last.at]) == last.at;
    }
  }

  /** And a wall clock may step back: after every run with a restart in it, a look far ahead that
      only prunes, and then one a second after that restart, restart again at once. */
  lemma SteppingClockForgets(looks: seq<Look>)
    requires Recorded(looks) != []
    ensures exists ahead: Look, back: Look ::
      && back.at == Last(Recorded(looks)) + 1.0
      && Recorded(looks + [ahead]) == Recorded(looks) && Cools(Recorded(looks), back.at)
      && Restarts(After(looks + [ahead]), back)
  {
    var last := Last(Recorded(looks));
    var ahead := Look(last + 601.0, Inactive, last + 601.0, Reviving);
    var back := Look(last + 1.0, Inactive, last + 1.0, Command(true));
    assert !Restarts(After(looks), ahead);
    RecordedNext(looks, ahead, 0);
    ForgottenNext(looks, ahead);
    CooldownDiffersExactly(looks + [ahead], back);
    AnyHistory(looks + [ahead]);
    PrunedVerdict(After(looks + [ahead]).history, back.at, back.attempt);
    assert Restarts(After(looks + [ahead]), back);
  }

  // ---- Why --------------------------------------------------------------------------

  /** What makes the count of failures start again: a healthy result, a disabled service, a restart. */
  predicate Resets(p: Profile, look: Look) {
    || look.service.Disabled?
    || (look.service == Active(true) && p.grace <= look.now)
    || Restarts(p, look)
  }

  predicate FailsAt(looks: seq<Look>, i: nat)
    requires i < |looks|
  {
    Fails(After(looks[..i]), looks[i])
  }

  predicate ResetsAt(looks: seq<Look>, i: nat)
    requires i < |looks|
  {
    Resets(After(looks[..i]), looks[i])
  }

  /** A failing result at `j` that nothing since has wiped out. */
  predicate Standing(looks: seq<Look>, j: nat) {
    j < |looks| && FailsAt(looks, j) && forall k | j <= k < |looks| :: !ResetsAt(looks, k)
  }

  lemma ExtendAt(looks: seq<Look>, look: Look, i: nat)
    requires i <= |looks|
    ensures i < |looks| ==>
      FailsAt(looks + [look], i) == FailsAt(looks, i) && ResetsAt(looks + [look], i) == ResetsAt(looks, i)
    ensures FailsAt(looks + [look], |looks|) == Fails(After(looks), look)
    ensures ResetsAt(looks + [look], |looks|) == Resets(After(looks), look)
  {
    assert (looks + [look])[..i] == looks[..i];
    assert (looks + [look])[..|looks|] == looks;
  }

  /** A failure is being counted exactly when some failing result still stands. */
  lemma {:induction false} CountedIsStanding(looks: seq<Look>)
    ensures After(looks).failures >= 1 <==> exists j :: Standing(looks, j)
    decreases |looks|
  {
    if looks != [] {
      var n := |looks| - 1;
      var init, look := looks[..n], looks[n];
      assert looks == init + [look];
      CountedIsStanding(init);
      forall i: nat | i <= n
        ensures i < n ==> FailsAt(looks, i) == FailsAt(init, i) && ResetsAt(looks, i) == ResetsAt(init, i) {
        ExtendAt(init, look, i);
      }
      ExtendAt(init, look, n);
      if Resets(After(init), look) {
        assert After(looks).failures == 0;
      } else if Fails(After(init), look) {
        assert Standing(looks, n);
      } else {
        assert After(looks).failures == After(init).failures;
        forall j ensures Standing(looks, j) <==> Standing(init, j) {
        }
      }
    }
  }

  /** A restart is asked for on account of health exactly when this is a failing result and an
      earlier one stands, with no healthy result, disabled service or restart since. */
  lemma TwoFailuresExactly(looks: seq<Look>, look: Look)
    requires look.service.Active?
    ensures Asks(After(looks), look) <==> Fails(After(looks), look) && exists j :: Standing(looks, j)
  {
    CountedIsStanding(looks);
  }

  lemma {:induction false} GraceGrows(looks: seq<Look>, i: nat)
    requires Ordered(looks) && i < |looks| && Restarts(After(looks[..i]), looks[i])
    ensures After(looks).grace >= looks[i].at + GRACE
    decreases |looks|
  {
    var n := |looks| - 1;
    if i < n {
      assert looks[..n][..i] == looks[..i];
      GraceGrows(looks[..n], i);
    }
  }

  /** A restarted service is left alone for 120 s: no later failing result comes sooner. */
  lemma GraceRespected(looks: seq<Look>, i: nat, k: nat)
    requires Ordered(looks) && i < k < |looks| && Restarts(After(looks[..i]), looks[i]) && FailsAt(looks, k)
    ensures looks[k].now >= looks[i].at + GRACE
  {
    assert looks[..k][..i] == looks[..i];
    GraceGrows(looks[..k], i);
  }
}
