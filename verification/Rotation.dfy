/** Finding and replacing agent tokens in configuration files
    (internal/localconfig/rotation.go). */
module Rotation {
  import opened Prelude
  import opened Bytes

  type Token = seq<Byte>

  /** A match of tokenPattern: the half-open range of bytes it covers. */
  datatype Match = Match(start: nat, end: nat)

  const MIN_BODY := 32
  const MAX_BODY := 100

  /** [A-Za-z0-9_-] */
  predicate TokenByte(b: Byte) {
    65 <= b <= 90 || 97 <= b <= 122 || 48 <= b <= 57 || b == 95 || b == 45
  }

  /** Length of the longest run of token bytes of `t` that starts at `i`. */
  function RunAt(t: seq<Byte>, i: nat): (n: nat)
    requires i <= |t|
    ensures i + n <= |t|
    decreases |t| - i
  {
    if i < |t| && TokenByte(t[i]) then 1 + RunAt(t, i + 1) else 0
  }

  predicate MarkAt(t: seq<Byte>, i: nat) {
    i + 4 <= |t| && t[i] == 116 && t[i + 1] == 109 && t[i + 2] == 120 && t[i + 3] == 95
  }

  /** tokenPattern tried at `i`: the mark, then as many token bytes as allowed. */
  predicate MatchesAt(t: seq<Byte>, i: nat) {
    MarkAt(t, i) && RunAt(t, i + 4) >= MIN_BODY
  }

  function EndAt(t: seq<Byte>, i: nat): (e: nat)
    requires MatchesAt(t, i)
    ensures i + 4 + MIN_BODY <= e <= |t|
  {
    i + 4 + Min(RunAt(t, i + 4), MAX_BODY)
  }

  /** Where the search goes on after `i`. */
  function NextAt(t: seq<Byte>, i: nat): (e: nat)
    requires i < |t|
    ensures i < e <= |t|
  {
    if MatchesAt(t, i) then EndAt(t, i) else i + 1
  }

  /** FindAll from position `i`: leftmost, greedy, not overlapping. */
  function Scan(t: seq<Byte>, i: nat): seq<Match>
    requires i <= |t|
    decreases |t| - i
  {
    if i == |t| then []
    else if MatchesAt(t, i) then [Match(i, NextAt(t, i))] + Scan(t, NextAt(t, i))
    else Scan(t, NextAt(t, i))
  }

  function FindAll(t: seq<Byte>): seq<Match> {
    Scan(t, 0)
  }

  predicate Within(t: seq<Byte>, m: Match) {
    m.start <= m.end <= |t|
  }

  function TextOf(t: seq<Byte>, m: Match): Token
    requires Within(t, m)
  {
    t[m.start..m.end]
  }

  lemma {:induction false} ScanInRange(t: seq<Byte>, i: nat)
    requires i <= |t|
    ensures forall m | m in Scan(t, i) ::
      i <= m.start && m.start + 4 + MIN_BODY <= m.end <= |t| && MatchesAt(t, m.start)
    decreases |t| - i
  {
    if i < |t| {
      ScanInRange(t, NextAt(t, i));
    }
  }

  /** What becomes of the match, or of the byte, at `i`. */
  function PieceAt(t: seq<Byte>, i: nat, was: Token, next: Token): seq<Byte>
    requires i < |t|
  {
    var piece := t[i..NextAt(t, i)];
    if MatchesAt(t, i) && piece == was then next else piece
  }

  /** ReplaceAllFunc with the function of Apply, from position `i`. */
  function ReplaceFrom(t: seq<Byte>, i: nat, was: Token, next: Token): seq<Byte>
    requires i <= |t|
    decreases |t| - i
  {
    if i == |t| then [] else PieceAt(t, i, was, next) + ReplaceFrom(t, NextAt(t, i), was, next)
  }

  function Replace(t: seq<Byte>, was: Token, next: Token): seq<Byte> {
    ReplaceFrom(t, 0, was, next)
  }

  /** What newToken issues: the mark and a body of token bytes. */
  predicate Issued(token: Token) {
    && 4 + MIN_BODY <= |token| <= 4 + MAX_BODY
    && MarkAt(token, 0)
    && forall i | 4 <= i < |token| :: TokenByte(token[i])
  }

  // ---- What matches -----------------------------------------------------------------

  /** The class [A-Za-z0-9_-], written with characters. */
  lemma TokenByteExactly(b: Byte)
    ensures var c := b as char;
      TokenByte(b) <==> 'A' <= c <= 'Z' || 'a' <= c <= 'z' || '0' <= c <= '9' || c == '_' || c == '-'
  {
  }

  lemma {:induction false} RunMeaning(t: seq<Byte>, i: nat)
    requires i <= |t|
    ensures forall k | i <= k < i + RunAt(t, i) :: TokenByte(t[k])
    ensures i + RunAt(t, i) < |t| ==> !TokenByte(t[i + RunAt(t, i)])
    decreases |t| - i
  {
    if i < |t| && TokenByte(t[i]) {
      RunMeaning(t, i + 1);
    }
  }

  lemma {:induction false} RunLongest(t: seq<Byte>, i: nat, n: nat)
    requires i + n <= |t| && forall k | i <= k < i + n :: TokenByte(t[k])
    ensures n <= RunAt(t, i)
    decreases n
  {
    if n > 0 {
      RunLongest(t, i + 1, n - 1);
    }
  }

  /** A match is the mark and then 32 to 100 token bytes, and it ends at 100 of them, or where they
      or the file end. */
  lemma MatchExactly(t: seq<Byte>, i: nat)
    ensures MatchesAt(t, i) <==>
      i + 36 <= |t| && t[i..i + 4] == [116, 109, 120, 95] && forall k | i + 4 <= k < i + 36 :: TokenByte(t[k])
    ensures MatchesAt(t, i) ==>
      var e := EndAt(t, i);
      && i + 36 <= e <= i + 104 && e <= |t| && (forall k | i + 4 <= k < e :: TokenByte(t[k]))
      && (e == i + 104 || e == |t| || !TokenByte(t[e]))
  {
    if i + 4 <= |t| {
      RunMeaning(t, i + 4);
      assert t[i..i + 4] == [t[i], t[i + 1], t[i + 2], t[i + 3]];
      if i + 36 <= |t| && forall k | i + 4 <= k < i + 36 :: TokenByte(t[k]) {
        RunLongest(t, i + 4, 32);
      }
    }
  }

  /** A token that was issued, with no token byte after it, is a match of its own. */
  lemma IssuedMatches(before: seq<Byte>, token: Token, rest: seq<Byte>)
    requires Issued(token) && (rest == [] || !TokenByte(rest[0]))
    ensures var t := before + token + rest;
      MatchesAt(t, |before|) && t[|before|..EndAt(t, |before|)] == token
  {
    var t, i := before + token + rest, |before|;
    assert forall k | 0 <= k < |token| :: t[i + k] == token[k];
    forall k | i + 4 <= k < i + |token| ensures TokenByte(t[k]) {
      assert t[k] == token[k - i];
    }
    assert rest != [] ==> t[i + |token|] == rest[0];
    RunLongest(t, i + 4, |token| - 4);
    RunMeaning(t, i + 4);
    assert t[i..i + |token|] == token;
  }

  // ---- The scan is the leftmost-greedy one ------------------------------------------

  /** A list of matches that leaves no match in the gaps and takes each as long as allowed. */
  ghost predicate Leftmost(t: seq<Byte>, i: nat, matches: seq<Match>)
    decreases |matches|
  {
    if matches == [] then forall p | i <= p < |t| :: !MatchesAt(t, p)
    else
      var m := matches[0];
      && i <= m.start
      && MatchesAt(t, m.start) && m.end == EndAt(t, m.start)
      && (forall p | i <= p < m.start :: !MatchesAt(t, p))
      && Leftmost(t, m.end, matches[1..])
  }

  lemma LeftmostLater(t: seq<Byte>, i: nat, matches: seq<Match>)
    requires !MatchesAt(t, i) && Leftmost(t, i + 1, matches)
    ensures Leftmost(t, i, matches)
  {
  }

  lemma {:induction false} ScanIsLeftmost(t: seq<Byte>, i: nat)
    requires i <= |t|
    ensures Leftmost(t, i, Scan(t, i))
    decreases |t| - i
  {
    if i < |t| {
      if MatchesAt(t, i) {
        ScanIsLeftmost(t, EndAt(t, i));
      } else {
        ScanIsLeftmost(t, i + 1);
        LeftmostLater(t, i, Scan(t, i + 1));
      }
    }
  }

  /** The description above fits one list only: Scan is that list. */
  lemma {:induction false} LeftmostIsScan(t: seq<Byte>, i: nat, matches: seq<Match>)
    requires i <= |t| && Leftmost(t, i, matches)
    ensures matches == Scan(t, i)
    decreases |t| - i
  {
    if i == |t| {
      assert matches == [];
    } else if MatchesAt(t, i) {
      assert matches != [] && matches[0].start == i;
      LeftmostIsScan(t, EndAt(t, i), matches[1..]);
    } else {
      LeftmostIsScan(t, i + 1, matches);
    }
  }

  // ---- Rewriting keeps every match in place -----------------------------------------

  /** `u` differs from `t` only inside matches equal to `was`, past their mark, and there
      token bytes stay token bytes. */
  ghost predicate Swapped(t: seq<Byte>, u: seq<Byte>, i: nat, was: Token)
    requires i <= |t|
  {
    && |u| == |t|
    && (forall k | 0 <= k < |t| :: TokenByte(t[k]) == TokenByte(u[k]))
    && (forall k | i <= k < |t| && t[k] != u[k] ::
          exists m | m in Scan(t, i) :: m.start + 4 <= k < m.end <= |t| && TextOf(t, m) == was)
  }

  lemma {:induction false} SameRun(t: seq<Byte>, u: seq<Byte>, i: nat)
    requires |t| == |u| && i <= |t|
    requires forall k | 0 <= k < |t| :: TokenByte(t[k]) == TokenByte(u[k])
    ensures RunAt(t, i) == RunAt(u, i)
    decreases |t| - i
  {
    if i < |t| && TokenByte(t[i]) {
      SameRun(t, u, i + 1);
    }
  }

  lemma SameMatchAt(t: seq<Byte>, u: seq<Byte>, i: nat, was: Token)
    requires i < |t| && Swapped(t, u, i, was)
    ensures MatchesAt(t, i) == MatchesAt(u, i)
    ensures MatchesAt(t, i) ==> EndAt(t, i) == EndAt(u, i)
  {
    ScanInRange(t, i);
    assert forall k | i <= k < |t| && k < i + 4 :: t[k] == u[k];
    if i + 4 <= |t| {
      SameRun(t, u, i + 4);
    }
  }

  lemma {:induction false} ReplaceFromLength(t: seq<Byte>, i: nat, was: Token, next: Token)
    requires i <= |t| && |was| == |next|
    ensures |ReplaceFrom(t, i, was, next)| == |t| - i
    decreases |t| - i
  {
    if i < |t| {
      ReplaceFromLength(t, NextAt(t, i), was, next);
    }
  }

  /** Byte `k` became `b`: it lies in one of the matches that read `was`, and `b` is the byte of
      `next` there. */
  ghost predicate Explained(t: seq<Byte>, matches: seq<Match>, was: Token, next: Token, k: nat, b: Byte) {
    exists m | m in matches ::
      m.start <= k < m.end <= |t| && TextOf(t, m) == was && k - m.start < |next| && b == next[k - m.start]
  }

  lemma ExplainedLater(t: seq<Byte>, i: nat, was: Token, next: Token, k: nat, b: Byte)
    requires i < |t| && Explained(t, Scan(t, NextAt(t, i)), was, next, k, b)
    ensures Explained(t, Scan(t, i), was, next, k, b)
  {
    var later := Scan(t, NextAt(t, i));
    var m :| m in later && m.start <= k < m.end <= |t| && TextOf(t, m) == was
             && k - m.start < |next| && b == next[k - m.start];
    assert m in Scan(t, i);
  }

  lemma ExplainedHere(t: seq<Byte>, i: nat, was: Token, next: Token, k: nat)
    requires i <= k < |t| && k < NextAt(t, i) && |was| == |next|
    ensures |PieceAt(t, i, was, next)| == NextAt(t, i) - i
    ensures var b := PieceAt(t, i, was, next)[k - i]; b == t[k] || Explained(t, Scan(t, i), was, next, k, b)
  {
    var m := Match(i, NextAt(t, i));
    if MatchesAt(t, i) && TextOf(t, m) == was {
      assert m in Scan(t, i);
    }
  }

  /** Every byte of the rewritten file is kept or explained. */
  lemma {:induction false} ReplaceFromAt(t: seq<Byte>, i: nat, was: Token, next: Token, k: nat)
    requires i <= k < |t| && |was| == |next|
    ensures |ReplaceFrom(t, i, was, next)| == |t| - i
    ensures var b := ReplaceFrom(t, i, was, next)[k - i]; b == t[k] || Explained(t, Scan(t, i), was, next, k, b)
    decreases |t| - i
  {
    var e := NextAt(t, i);
    ReplaceFromLength(t, i, was, next);
    ReplaceFromLength(t, e, was, next);
    if k >= e {
      ReplaceFromAt(t, e, was, next, k);
      var b := ReplaceFrom(t, e, was, next)[k - e];
      if b != t[k] {
        ExplainedLater(t, i, was, next, k, b);
      }
    } else {
      ExplainedHere(t, i, was, next, k);
    }
  }

  lemma MatchByte(t: seq<Byte>, m: Match, token: Token, k: nat)
    requires Within(t, m) && TextOf(t, m) == token && m.start <= k < m.end
    ensures |token| == m.end - m.start && t[k] == token[k - m.start]
  {
  }

  lemma IssuedBytes(was: Token, next: Token, k: nat)
    requires Issued(was) && Issued(next) && k < |was| == |next|
    ensures TokenByte(was[k]) && TokenByte(next[k])
    ensures k < 4 ==> was[k] == next[k]
  {
  }

  /** Past the mark of a match that reads `was`. */
  ghost predicate InBody(t: seq<Byte>, was: Token, k: nat) {
    exists m | m in Scan(t, 0) :: m.start + 4 <= k < m.end <= |t| && TextOf(t, m) == was
  }

  lemma ExplainedByte(t: seq<Byte>, was: Token, next: Token, k: nat, b: Byte)
    requires Issued(was) && Issued(next) && |was| == |next| && k < |t|
    requires Explained(t, Scan(t, 0), was, next, k, b)
    ensures TokenByte(t[k]) == TokenByte(b) && (t[k] == b || InBody(t, was, k))
  {
    var m :| m in Scan(t, 0) && m.start <= k < m.end <= |t| && TextOf(t, m) == was
             && k - m.start < |next| && b == next[k - m.start];
    MatchByte(t, m, was, k);
    IssuedBytes(was, next, k - m.start);
  }

  lemma ReplaceByte(t: seq<Byte>, was: Token, next: Token, k: nat)
    requires Issued(was) && Issued(next) && |was| == |next| && k < |t|
    ensures |Replace(t, was, next)| == |t|
    ensures var b := Replace(t, was, next)[k]; TokenByte(t[k]) == TokenByte(b) && (t[k] == b || InBody(t, was, k))
  {
    ReplaceFromAt(t, 0, was, next, k);
    var b := Replace(t, was, next)[k];
    if t[k] != b {
      ExplainedByte(t, was, next, k, b);
    }
  }

  lemma ReplaceSwaps(t: seq<Byte>, was: Token, next: Token)
    requires Issued(was) && Issued(next) && |was| == |next|
    ensures Swapped(t, Replace(t, was, next), 0, was)
  {
    ReplaceFromLength(t, 0, was, next);
    forall k | 0 <= k < |t|
      ensures TokenByte(t[k]) == TokenByte(Replace(t, was, next)[k])
      ensures t[k] == Replace(t, was, next)[k] || exists m | m in Scan(t, 0) ::
        m.start + 4 <= k < m.end <= |t| && TextOf(t, m) == was
    {
      ReplaceByte(t, was, next, k);
    }
  }

  /** The matches of the rewritten file are at the same places, with the same lengths. */
  lemma {:induction false} ScanStable(t: seq<Byte>, u: seq<Byte>, i: nat, was: Token)
    requires i <= |t| && Swapped(t, u, i, was)
    ensures Scan(u, i) == Scan(t, i)
    decreases |t| - i
  {
    if i < |t| {
      SameMatchAt(t, u, i, was);
      var e := NextAt(t, i);
      forall k | e <= k < |t| && t[k] != u[k]
        ensures exists m | m in Scan(t, e) :: m.start + 4 <= k < m.end <= |t| && TextOf(t, m) == was
      {
        var m :| m in Scan(t, i) && m.start + 4 <= k < m.end <= |t| && TextOf(t, m) == was;
        assert m in Scan(t, e);
      }
      ScanStable(t, u, e, was);
    }
  }

  /** A match is the one at `i` or comes after it. */
  lemma ScanParts(t: seq<Byte>, i: nat, m: Match)
    requires i < |t| && m in Scan(t, i)
    ensures m in Scan(t, NextAt(t, i)) || (MatchesAt(t, i) && m == Match(i, NextAt(t, i)))
  {
  }

  /** What a match reads after the rewrite. */
  function Reads(t: seq<Byte>, m: Match, was: Token, next: Token): Token
    requires Within(t, m)
  {
    if TextOf(t, m) == was then next else TextOf(t, m)
  }

  /** `whole`, which stands from `i` on, has that at the place of `m`. */
  ghost predicate ReadsAt(t: seq<Byte>, m: Match, was: Token, next: Token, whole: seq<Byte>, i: nat) {
    && i <= m.start && Within(t, m) && |whole| == |t| - i
    && whole[m.start - i..m.end - i] == Reads(t, m, was, next)
  }

  lemma ReadsLater(t: seq<Byte>, m: Match, was: Token, next: Token, head: seq<Byte>, rest: seq<Byte>, i: nat, e: nat)
    requires i + |head| == e && ReadsAt(t, m, was, next, rest, e)
    ensures ReadsAt(t, m, was, next, head + rest, i)
  {
    assert (head + rest)[m.start - i..m.end - i] == rest[m.start - e..m.end - e];
  }

  lemma ReadsHere(t: seq<Byte>, was: Token, next: Token, head: seq<Byte>, rest: seq<Byte>, i: nat)
    requires i + |head| + |rest| == |t| && head == Reads(t, Match(i, i + |head|), was, next)
    ensures ReadsAt(t, Match(i, i + |head|), was, next, head + rest, i)
  {
    assert (head + rest)[0..|head|] == head;
  }

  lemma PieceReads(t: seq<Byte>, i: nat, was: Token, next: Token)
    requires i < |t| && |was| == |next|
    ensures i + |PieceAt(t, i, was, next)| == NextAt(t, i)
    ensures MatchesAt(t, i) ==> PieceAt(t, i, was, next) == Reads(t, Match(i, NextAt(t, i)), was, next)
  {
  }

  /** Each match of the rewritten file reads as before, except that `was` became `next`. */
  lemma {:induction false} ReplaceFromText(t: seq<Byte>, i: nat, was: Token, next: Token, m: Match)
    requires i <= |t| && |was| == |next| && m in Scan(t, i)
    ensures ReadsAt(t, m, was, next, ReplaceFrom(t, i, was, next), i)
    decreases |t| - i
  {
    var e := NextAt(t, i);
    var head, rest := PieceAt(t, i, was, next), ReplaceFrom(t, e, was, next);
    ReplaceFromLength(t, e, was, next);
    PieceReads(t, i, was, next);
    ScanParts(t, i, m);
    if m in Scan(t, e) {
      ReplaceFromText(t, e, was, next, m);
      ReadsLater(t, m, was, next, head, rest, i, e);
    } else {
      ReadsHere(t, was, next, head, rest, i);
    }
  }

  /** How many of a list of matches of `t` read `token`. */
  function Tally(t: seq<Byte>, matches: seq<Match>, token: Token): nat
    requires forall m | m in matches :: Within(t, m)
  {
    if matches == [] then 0
    else (if TextOf(t, matches[0]) == token then 1 else 0) + Tally(t, matches[1..], token)
  }

  lemma {:induction false} TallyAfterReplace(t: seq<Byte>, u: seq<Byte>, matches: seq<Match>, was: Token, next: Token,
                                             token: Token)
    requires forall m | m in matches :: Within(t, m) && Within(u, m)
    requires forall m | m in matches :: TextOf(u, m) == if TextOf(t, m) == was then next else TextOf(t, m)
    requires was != next
    ensures Tally(u, matches, was) == 0
    ensures Tally(u, matches, next) == Tally(t, matches, was) + Tally(t, matches, next)
    ensures token != was && token != next ==> Tally(u, matches, token) == Tally(t, matches, token)
  {
    if matches != [] {
      assert matches[0] in matches;
      TallyAfterReplace(t, u, matches[1..], was, next, token);
    }
  }

  lemma FindAllWithin(t: seq<Byte>)
    ensures forall m | m in FindAll(t) :: Within(t, m)
  {
    ScanInRange(t, 0);
  }

  /** Rewriting is exact and scan-stable. */
  lemma RewriteExact(t: seq<Byte>, was: Token, next: Token)
    requires Issued(was) && Issued(next) && |was| == |next| && was != next
    ensures var u := Replace(t, was, next);
      && |u| == |t|
      && FindAll(u) == FindAll(t)
      && (forall m | m in FindAll(t) :: Within(t, m))
      && (forall m | m in FindAll(t) :: TextOf(u, m) == if TextOf(t, m) == was then next else TextOf(t, m))
      && (forall k | 0 <= k < |t| && t[k] != u[k] :: exists m | m in FindAll(t) ::
        m.start <= k < m.end && TextOf(t, m) == was)
      && Tally(u, FindAll(u), was) == 0
      && Tally(u, FindAll(u), next) == Tally(t, FindAll(t), was) + Tally(t, FindAll(t), next)
  {
    var u := Replace(t, was, next);
    ReplaceSwaps(t, was, next);
    ScanStable(t, u, 0, was);
    FindAllWithin(t);
    forall m | m in FindAll(t)
      ensures TextOf(u, m) == if TextOf(t, m) == was then next else TextOf(t, m)
    {
      ReplaceFromText(t, 0, was, next, m);
    }
    TallyAfterReplace(t, u, FindAll(t), was, next, was);
  }

  lemma RewriteKeepsMatch(t: seq<Byte>, was: Token, next: Token, m: Match)
    requires Issued(was) && Issued(next) && |was| == |next| && was != next && m in FindAll(t)
    ensures var u := Replace(t, was, next);
      Within(t, m) && Within(u, m) && m in FindAll(u) && TextOf(u, m) == if TextOf(t, m) == was then next
        else TextOf(t, m)
  {
    RewriteExact(t, was, next);
  }

  /** Rewriting back gives the original file when the new token was not in it. */
  lemma RewriteUndone(t: seq<Byte>, was: Token, next: Token)
    requires Issued(was) && Issued(next) && |was| == |next| && was != next
    requires forall m | m in FindAll(t) :: Within(t, m) && TextOf(t, m) != next
    ensures Replace(Replace(t, was, next), next, was) == t
  {
    var u := Replace(t, was, next);
    var v := Replace(u, next, was);
    RewriteExact(t, was, next);
    RewriteExact(u, next, was);
    forall k | 0 <= k < |t|
      ensures v[k] == t[k]
    {
      if u[k] != t[k] || v[k] != u[k] {
        var m :| m in FindAll(t) && m.start <= k < m.end;
        MatchByte(t, m, TextOf(t, m), k);
        MatchByte(v, m, TextOf(t, m), k);
      }
    }
  }
}
