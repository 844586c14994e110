/** The shared login-attempt counter (internal/store/admin.go, AllowLogin).  Times are seconds;
    the application and the database read the same clock, which never goes back. */
module LoginLimit {
  import opened Prelude

  type Address = string

  const WINDOW := 900
  const HOUR := 3600
  const LIMIT := 10

  datatype Row = Row(attempts: nat, resetAt: int)

  /** The upsert for one address. */
  function Counted(row: Option<Row>, now: int): Row {
    if row.None? then Row(1, now + WINDOW)
    else if row.value.resetAt <= now then Row(1, now + WINDOW)
    else Row(row.value.attempts + 1, row.value.resetAt)
  }

  function Get(rows: map<Address, Row>, a: Address): Option<Row> {
    if a in rows then Some(rows[a]) else None
  }

  function Swept(rows: map<Address, Row>, now: int): map<Address, Row> {
    map a | a in rows && !(rows[a].resetAt < now - HOUR) :: rows[a]
  }

  class Limiter {
    var rows: map<Address, Row>

    constructor ()
      ensures rows == map[]
    {
      rows := map[];
    }

    method AllowLogin(a: Address, now: int) returns (allowed: bool)
      modifies this
      ensures allowed == (Counted(Get(old(rows), a), now).attempts <= LIMIT)
      ensures rows == Swept(old(rows)[a := Counted(Get(old(rows), a), now)], now)
    {
      if a !in rows || rows[a].resetAt <= now {
        rows := rows[a := Row(1, now + WINDOW)];
      } else {
        rows := rows[a := Row(rows[a].attempts + 1, rows[a].resetAt)];
      }
      var count := rows[a].attempts;
      rows := Swept(rows, now);
      allowed := count <= LIMIT;
    }
  }

  // ---- Cleanup ----------------------------------------------------------------------

  datatype Attempt = Attempt(address: Address, at: int)

  /** Calls in the order the database serves them. */
  predicate Ordered(calls: seq<Attempt>) {
    forall i, j | 0 <= i < j < |calls| :: calls[i].at <= calls[j].at
  }

  /** The rows after the calls, with the cleanup of each call or without. */
  function RowsAfter(calls: seq<Attempt>, sweep: bool): map<Address, Row>
    decreases |calls|
  {
    if calls == [] then map[]
    else
      var n := |calls| - 1;
      var rows := RowsAfter(calls[..n], sweep);
      var counted := rows[calls[n].address := Counted(Get(rows, calls[n].address), calls[n].at)];
      if sweep then Swept(counted, calls[n].at) else counted
  }

  /** The answer to the n-th call. */
  predicate Admitted(calls: seq<Attempt>, n: nat, sweep: bool)
    requires n < |calls|
  {
    Counted(Get(RowsAfter(calls[..n], sweep), calls[n].address), calls[n].at).attempts <= LIMIT
  }

  /** A swept row and no row count the same from then on. */
  predicate SameFrom(x: Option<Row>, y: Option<Row>, now: int) {
    x == y || ((x.None? || x.value.resetAt <= now) && (y.None? || y.value.resetAt <= now))
  }

  lemma {:induction false} SweepInvisible(calls: seq<Attempt>, a: Address, now: int)
    requires Ordered(calls) && (calls != [] ==> calls[|calls| - 1].at <= now)
    ensures SameFrom(Get(RowsAfter(calls, true), a), Get(RowsAfter(calls, false), a), now)
    decreases |calls|
  {
    if calls != [] {
      var n := |calls| - 1;
      SweepInvisible(calls[..n], a, calls[n].at);
      SweepInvisible(calls[..n], calls[n].address, calls[n].at);
    }
  }

  /** The cleanup never changes an answer. */
  lemma CleanupChangesNoAnswer(calls: seq<Attempt>, n: nat)
    requires Ordered(calls) && n < |calls|
    ensures Admitted(calls, n, true) == Admitted(calls, n, false)
  {
    SweepInvisible(calls[..n], calls[n].address, calls[n].at);
  }

  /** After each call exactly the rows are left whose window ended at most an hour before it. */
  lemma SweptExactly(calls: seq<Attempt>, a: Address)
    requires calls != []
    ensures var n := |calls| - 1;
      var before, last := RowsAfter(calls[..n], true), calls[n];
      var row := if a == last.address then Some(Counted(Get(before, a), last.at)) else Get(before, a);
      Get(RowsAfter(calls, true), a) == if row.Some? && row.value.resetAt >= last.at - 3600 then row else None
  {
  }

  // ---- Windows ----------------------------------------------------------------------

  /** The fixed windows an address went through: when each began and the times it admitted. */
  datatype Window = Window(start: int, admitted: seq<int>)

  /** The windows after one more attempt, given the row it meets. */
  function NextWindows(ws: seq<Window>, row: Option<Row>, at: int): seq<Window> {
    if row.None? || row.value.resetAt <= at || ws == [] then ws + [Window(at, [at])]
    else if row.value.attempts + 1 <= LIMIT then ws[|ws| - 1 := ws[|ws| - 1].(admitted := ws[|ws| - 1].admitted + [at])]
    else ws
  }

  /** The windows of `a` after the calls, newest last. */
  function Windows(calls: seq<Attempt>, a: Address): seq<Window>
    decreases |calls|
  {
    if calls == [] then []
    else
      var n := |calls| - 1;
      var ws := Windows(calls[..n], a);
      if calls[n].address == a then NextWindows(ws, Get(RowsAfter(calls[..n], false), a), calls[n].at) else ws
  }

  /** The times of the admitted attempts of `a`, in order. */
  function AdmittedTimes(calls: seq<Attempt>, a: Address): seq<int>
    decreases |calls|
  {
    if calls == [] then []
    else
      var n := |calls| - 1;
      AdmittedTimes(calls[..n], a) + if calls[n].address == a && Admitted(calls, n, false) then [calls[n].at] else []
  }

  function Flatten(ws: seq<Window>): seq<int>
    decreases |ws|
  {
    if ws == [] then [] else Flatten(ws[..|ws| - 1]) + ws[|ws| - 1].admitted
  }

  ghost predicate WindowInv(w: Window) {
    |w.admitted| <= LIMIT && forall i | 0 <= i < |w.admitted| :: w.start <= w.admitted[i] < w.start + WINDOW
  }

  ghost predicate Spaced(ws: seq<Window>) {
    && (forall i, j | 0 <= i < j < |ws| :: ws[i].start + WINDOW <= ws[j].start)
    && (forall i | 0 <= i < |ws| :: WindowInv(ws[i]))
  }

  /** The row of an address describes its newest window. */
  ghost predicate Describes(row: Option<Row>, ws: seq<Window>) {
    if row.None? then ws == []
    else
      && ws != []
      && row.value.resetAt == ws[|ws| - 1].start + WINDOW
      && |ws[|ws| - 1].admitted| == Min(row.value.attempts, LIMIT)
  }

  lemma FlattenAppend(ws: seq<Window>, w: Window)
    ensures Flatten(ws + [w]) == Flatten(ws) + w.admitted
  {
    assert (ws + [w])[..|ws|] == ws;
  }

  lemma SpacedAppend(ws: seq<Window>, w: Window)
    requires Spaced(ws) && WindowInv(w) && (ws != [] ==> ws[|ws| - 1].start + WINDOW <= w.start)
    ensures Spaced(ws + [w])
  {
    var after := ws + [w];
    forall i | 0 <= i < |after| ensures WindowInv(after[i]) {
      if i < |ws| { assert WindowInv(ws[i]); }
    }
    forall i, j | 0 <= i < j < |after| ensures after[i].start + WINDOW <= after[j].start {
      if j == |ws| && i < |ws| - 1 { assert ws[i].start + WINDOW <= ws[|ws| - 1].start; }
    }
  }

  /** The newest window takes one more admitted attempt. */
  lemma FillWindow(ws: seq<Window>, at: int)
    requires Spaced(ws) && ws != []
    requires var last := ws[|ws| - 1]; last.start <= at < last.start + WINDOW && |last.admitted| < LIMIT
    ensures var last := ws[|ws| - 1];
      var after := ws[|ws| - 1 := last.(admitted := last.admitted + [at])];
      Spaced(after) && Flatten(after) == Flatten(ws) + [at]
  {
    var n := |ws| - 1;
    var last := ws[n].(admitted := ws[n].admitted + [at]);
    assert WindowInv(last) by { assert WindowInv(ws[n]); }
    assert ws[n := last] == ws[..n] + [last];
    SpacedAppend(ws[..n], last);
    FlattenAppend(ws[..n], last);
  }

  lemma WindowStep(ws: seq<Window>, row: Option<Row>, at: int)
    requires Spaced(ws) && Describes(row, ws) && (ws != [] ==> ws[|ws| - 1].start <= at)
    ensures var after, counted := NextWindows(ws, row, at), Counted(row, at);
      && Spaced(after) && Describes(Some(counted), after) && after[|after| - 1].start <= at
      && Flatten(after) == Flatten(ws) + if counted.attempts <= LIMIT then [at] else []
  {
    if row.None? || row.value.resetAt <= at {
      var window := Window(at, [at]);
      assert WindowInv(window);
      SpacedAppend(ws, window);
      FlattenAppend(ws, window);
    } else if row.value.attempts + 1 <= LIMIT {
      FillWindow(ws, at);
    } else {
      assert Flatten(ws) + [] == Flatten(ws);
    }
  }

  lemma {:induction false} WindowsFacts(calls: seq<Attempt>, a: Address)
    requires Ordered(calls)
    ensures var ws := Windows(calls, a);
      && Spaced(ws) && Describes(Get(RowsAfter(calls, false), a), ws)
      && (ws != [] ==> calls != [] && ws[|ws| - 1].start <= calls[|calls| - 1].at)
      && Flatten(ws) == AdmittedTimes(calls, a)
    decreases |calls|
  {
    if calls != [] {
      var n := |calls| - 1;
      WindowsFacts(calls[..n], a);
      var row := Get(RowsAfter(calls[..n], false), a);
      if calls[n].address == a {
        WindowStep(Windows(calls[..n], a), row, calls[n].at);
        assert Get(RowsAfter(calls, false), a) == Some(Counted(row, calls[n].at));
      } else {
        assert Get(RowsAfter(calls, false), a) == row;
        assert AdmittedTimes(calls, a) == AdmittedTimes(calls[..n], a);
      }
    }
  }

  /** How many of some times lie in a closed interval. */
  function CountIn(times: seq<int>, lo: int, hi: int): nat
    decreases |times|
  {
    if times == [] then 0
    else CountIn(times[..|times| - 1], lo, hi) + if lo <= times[|times| - 1] <= hi then 1 else 0
  }

  lemma {:induction false} CountInAppend(s: seq<int>, t: seq<int>, lo: int, hi: int)
    ensures CountIn(s + t, lo, hi) == CountIn(s, lo, hi) + CountIn(t, lo, hi)
    ensures CountIn(t, lo, hi) <= |t|
    decreases |t|
  {
    if t == [] {
      assert s + t == s;
    } else {
      assert (s + t)[..|s + t| - 1] == s + t[..|t| - 1];
      CountInAppend(s, t[..|t| - 1], lo, hi);
    }
  }

  lemma {:induction false} CountInNone(t: seq<int>, lo: int, hi: int)
    requires forall i | 0 <= i < |t| :: t[i] < lo || hi < t[i]
    ensures CountIn(t, lo, hi) == 0
    decreases |t|
  {
    if t != [] {
      CountInNone(t[..|t| - 1], lo, hi);
    }
  }

  lemma {:induction false} EarlierTimes(ws: seq<Window>, bound: int)
    requires Spaced(ws) && (ws != [] ==> ws[|ws| - 1].start + WINDOW <= bound)
    ensures forall i | 0 <= i < |Flatten(ws)| :: Flatten(ws)[i] < bound
    decreases |ws|
  {
    if ws != [] {
      assert WindowInv(ws[|ws| - 1]);
      EarlierTimes(ws[..|ws| - 1], bound);
    }
  }

  /** The last window adds at most the limit, and nothing when it starts after the interval. */
  lemma LastWindow(ws: seq<Window>, lo: int, hi: int)
    requires ws != [] && WindowInv(ws[|ws| - 1])
    ensures var last := CountIn(Flatten(ws), lo, hi) - CountIn(Flatten(ws[..|ws| - 1]), lo, hi);
      last <= LIMIT && (ws[|ws| - 1].start > hi ==> last == 0)
  {
    var last := ws[|ws| - 1];
    CountInAppend(Flatten(ws[..|ws| - 1]), last.admitted, lo, hi);
    if last.start > hi {
      CountInNone(last.admitted, lo, hi);
    }
  }

  lemma WindowsBefore(ws: seq<Window>, lo: int, hi: int)
    requires Spaced(ws) && ws != [] && ws[|ws| - 1].start <= lo
    ensures CountIn(Flatten(ws[..|ws| - 1]), lo, hi) == 0
  {
    EarlierTimes(ws[..|ws| - 1], ws[|ws| - 1].start);
    CountInNone(Flatten(ws[..|ws| - 1]), lo, hi);
  }

  /** Two fixed windows cover any interval as long as one. */
  lemma {:induction false} AtMostTwoWindows(ws: seq<Window>, lo: int, hi: int)
    requires Spaced(ws) && hi <= lo + WINDOW
    ensures CountIn(Flatten(ws), lo, hi) <= 2 * LIMIT
    decreases |ws|
  {
    if ws != [] {
      var n := |ws| - 1;
      LastWindow(ws, lo, hi);
      if ws[n].start > hi {
        AtMostTwoWindows(ws[..n], lo, hi);
      } else if n > 0 {
        LastWindow(ws[..n], lo, hi);
        WindowsBefore(ws[..n], lo, hi);
      }
    }
  }

  /** At most ten attempts of an address are admitted per fixed window, and at most twenty in any
      closed interval of fifteen minutes. */
  lemma AdmissionBounds(calls: seq<Attempt>, a: Address, lo: int)
    requires Ordered(calls)
    ensures forall i | 0 <= i < |Windows(calls, a)| :: |Windows(calls, a)[i].admitted| <= LIMIT
    ensures Flatten(Windows(calls, a)) == AdmittedTimes(calls, a)
    ensures CountIn(AdmittedTimes(calls, a), lo, lo + WINDOW) <= 2 * LIMIT
  {
    WindowsFacts(calls, a);
    assert forall i | 0 <= i < |Windows(calls, a)| :: WindowInv(Windows(calls, a)[i]);
    AtMostTwoWindows(Windows(calls, a), lo, lo + WINDOW);
  }
}

/** Which attempts are admitted, said by the attempts before them. */
module LoginAdmission {
  import opened Prelude
  import opened LoginLimit

  /** How many calls of `a` came at `from` or later. */
  function Since(calls: seq<Attempt>, a: Address, from: int): nat
    decreases |calls|
  {
    if calls == [] then 0
    else
      var last := calls[|calls| - 1];
      Since(calls[..|calls| - 1], a, from) + if last.address == a && last.at >= from then 1 else 0
  }

  lemma {:induction false} SinceNone(calls: seq<Attempt>, a: Address, from: int)
    requires forall i | 0 <= i < |calls| && calls[i].address == a :: calls[i].at < from
    ensures Since(calls, a, from) == 0
    decreases |calls|
  {
    if calls != [] {
      SinceNone(calls[..|calls| - 1], a, from);
    }
  }

  lemma {:induction false} SinceLess(calls: seq<Attempt>, a: Address, from: int, later: int)
    requires from <= later
    ensures Since(calls, a, later) <= Since(calls, a, from)
    decreases |calls|
  {
    if calls != [] {
      SinceLess(calls[..|calls| - 1], a, from, later);
    }
  }

  /** A row counts the calls of its window, which is its last 15 minutes. */
  ghost predicate RowCounts(calls: seq<Attempt>, a: Address) {
    match Get(RowsAfter(calls, false), a)
    case None => forall i | 0 <= i < |calls| :: calls[i].address != a
    case Some(row) =>
      && row.attempts == Since(calls, a, row.resetAt - WINDOW)
      && (forall i | 0 <= i < |calls| && calls[i].address == a :: calls[i].at < row.resetAt)
      && calls != [] && row.resetAt - WINDOW <= calls[|calls| - 1].at
  }

  lemma {:induction false} RowsCount(calls: seq<Attempt>, a: Address)
    requires Ordered(calls)
    ensures RowCounts(calls, a)
    decreases |calls|
  {
    if calls != [] {
      var n := |calls| - 1;
      var init, at := calls[..n], calls[n].at;
      RowsCount(init, a);
      assert forall i | 0 <= i < n :: init[i] == calls[i];
      if calls[n].address == a {
        var row := Get(RowsAfter(init, false), a);
        assert Get(RowsAfter(calls, false), a) == Some(Counted(row, at));
        if row.None? || row.value.resetAt <= at {
          SinceNone(init, a, at);
        }
      }
    }
  }

  /** The start of the window a call falls in: its own time when it opens one. */
  function WindowStart(calls: seq<Attempt>, n: nat): int
    requires n < |calls|
  {
    Counted(Get(RowsAfter(calls[..n], false), calls[n].address), calls[n].at).resetAt - WINDOW
  }

  /** A call is admitted exactly when fewer than ten of its address came before it in its window,
      which began at most 15 minutes ago. */
  lemma AdmittedExactly(calls: seq<Attempt>, n: nat)
    requires Ordered(calls) && n < |calls|
    ensures Admitted(calls, n, false) <==> Since(calls[..n], calls[n].address, WindowStart(calls, n)) < 10
    ensures WindowStart(calls, n) <= calls[n].at < WindowStart(calls, n) + 900
  {
    var init, a, at := calls[..n], calls[n].address, calls[n].at;
    assert Ordered(init);
    RowsCount(init, a);
    var row := Get(RowsAfter(init, false), a);
    if row.None? || row.value.resetAt <= at {
      SinceNone(init, a, at);
    }
  }

  /** So nobody with fewer than ten attempts in the last 15 minutes is turned away. */
  lemma FewAreAdmitted(calls: seq<Attempt>, n: nat)
    requires Ordered(calls) && n < |calls| && Since(calls[..n], calls[n].address, calls[n].at - 900) < 10
    ensures Admitted(calls, n, true)
  {
    AdmittedExactly(calls, n);
    SinceLess(calls[..n], calls[n].address, calls[n].at - 900, WindowStart(calls, n));
    CleanupChangesNoAnswer(calls, n);
  }
}
