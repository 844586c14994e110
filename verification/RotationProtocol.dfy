/** Inspecting files, applying a rotation to them, and the order in which rotateToken issues,
    writes and revokes (internal/localconfig/rotation.go, internal/web/operations.go). */
module RotationProtocol {
  import opened Prelude
  import opened Bytes
  import opened Rotation

  type Path = string

  const MAX_SIZE := 0x40_0000

  datatype File = Missing | Irregular | Unreadable | Regular(content: seq<Byte>)

  datatype Verdict = Accepted | Rejected | Failed

  datatype Reference = Reference(path: Path, content: seq<Byte>, token: Token, count: nat)

  function Lookup(disk: map<Path, File>, path: Path): File {
    if path in disk then disk[path] else Missing
  }

  /** The files Inspect refuses to go on after. */
  predicate Refused(file: File) {
    file.Irregular? || file.Unreadable? || (file.Regular? && |file.content| > MAX_SIZE)
  }

  /** `test` accepts one token value only: it compares a hash with a stored one. */
  ghost predicate Selective(test: Token -> Verdict) {
    forall a, b :: test(a) == Accepted && test(b) == Accepted ==> a == b
  }

  ghost predicate Errs(content: seq<Byte>, test: Token -> Verdict) {
    exists m | m in FindAll(content) :: Within(content, m) && test(TextOf(content, m)) == Failed
  }

  ghost predicate References(content: seq<Byte>, test: Token -> Verdict) {
    exists m | m in FindAll(content) :: Within(content, m) && test(TextOf(content, m)) == Accepted
  }

  /** What a reference says about the file it was taken from. */
  ghost predicate Faithful(disk: map<Path, File>, test: Token -> Verdict, r: Reference) {
    && Lookup(disk, r.path) == Regular(r.content)
    && |r.content| <= MAX_SIZE
    && (forall m | m in FindAll(r.content) :: Within(r.content, m))
    && test(r.token) == Accepted
    && r.count == Tally(r.content, FindAll(r.content), r.token) > 0
  }

  lemma {:induction false} TallySnoc(t: seq<Byte>, matches: seq<Match>, m: Match, token: Token)
    requires Within(t, m) && forall n | n in matches :: Within(t, n)
    ensures Tally(t, matches + [m], token) == Tally(t, matches, token) + if TextOf(t, m) == token then 1 else 0
  {
    if matches == [] {
      assert matches + [m] == [m];
    } else {
      assert (matches + [m])[1..] == matches[1..] + [m];
      TallySnoc(t, matches[1..], m, token);
    }
  }

  lemma {:induction false} TallyNone(t: seq<Byte>, matches: seq<Match>, token: Token)
    requires forall m | m in matches :: Within(t, m) && TextOf(t, m) != token
    ensures Tally(t, matches, token) == 0
  {
    if matches != [] {
      assert matches[0] in matches;
      TallyNone(t, matches[1..], token);
    }
  }

  /** The inner loop of Inspect: every candidate is put to the test. */
  method CountMatches(content: seq<Byte>, test: Token -> Verdict) returns (r: Option<(Token, nat)>)
    requires Selective(test)
    ensures r.None? <==> Errs(content, test)
    ensures forall m | m in FindAll(content) :: Within(content, m)
    ensures r.Some? ==> (r.value.1 > 0 <==> References(content, test))
    ensures r.Some? && r.value.1 > 0 ==>
      test(r.value.0) == Accepted && r.value.1 == Tally(content, FindAll(content), r.value.0)
  {
    FindAllWithin(content);
    var candidates := FindAll(content);
    var found: Token, count := [], 0;
    var i := 0;
    while i < |candidates|
      invariant 0 <= i <= |candidates|
      invariant forall j | 0 <= j < i :: test(TextOf(content, candidates[j])) != Failed
      invariant count > 0 <==> exists j | 0 <= j < i :: test(TextOf(content, candidates[j])) == Accepted
      invariant count > 0 ==> test(found) == Accepted && count == Tally(content, candidates[..i], found)
    {
      var candidate := TextOf(content, candidates[i]);
      var verdict := test(candidate);
      if verdict == Failed {
        assert candidates[i] in FindAll(content);
        return None;
      }
      assert candidates[..i + 1] == candidates[..i] + [candidates[i]];
      TallySnoc(content, candidates[..i], candidates[i], if verdict == Accepted then candidate else found);
      if verdict == Accepted {
        if count == 0 {
          TallyNone(content, candidates[..i], candidate);
        }
        found := candidate;
        count := count + 1;
      }
      i := i + 1;
    }
    assert candidates[..i] == candidates;
    r := Some((found, count));
  }

  /** Inspect over absolute paths.  It fails exactly when a listed file must be refused or a
      candidate cannot be checked; otherwise it reports each listed file that holds an accepted
      token, once, with its content and the number of references. */
  method Inspect(disk: map<Path, File>, paths: seq<Path>, test: Token -> Verdict) returns (r: Option<seq<Reference>>)
    requires Selective(test)
    ensures r.None? <==>
      exists p | p in paths ::
        var file := Lookup(disk, p);
        || file.Irregular? || file.Unreadable?
        || (file.Regular? && (|file.content| > 4 * 1024 * 1024 || Errs(file.content, test)))
    ensures r.Some? ==> forall i | 0 <= i < |r.value| :: Faithful(disk, test, r.value[i]) && r.value[i].path in paths
    ensures r.Some? ==> forall i, j | 0 <= i < j < |r.value| :: r.value[i].path != r.value[j].path
    ensures r.Some? ==> forall p | p in paths && Lookup(disk, p).Regular?
      && References(Lookup(disk, p).content, test) ::
              exists i | 0 <= i < |r.value| :: r.value[i].path == p
  {
    var result: seq<Reference> := [];
    var seen: set<Path> := {};
    var k := 0;
    while k < |paths|
      invariant 0 <= k <= |paths|
      invariant forall p :: p in seen <==> p in paths[..k]
      invariant forall p | p in seen ::
        !Refused(Lookup(disk, p)) && (Lookup(disk, p).Regular? ==> !Errs(Lookup(disk, p).content, test))
      invariant forall i | 0 <= i < |result| :: Faithful(disk, test, result[i]) && result[i].path in seen
      invariant forall i, j | 0 <= i < j < |result| :: result[i].path != result[j].path
      invariant forall p | p in seen && Lookup(disk, p).Regular? && References(Lookup(disk, p).content, test) ::
                  exists i | 0 <= i < |result| :: result[i].path == p
    {
      var path := paths[k];
      ghost var before := result;
      assert paths[..k + 1] == paths[..k] + [path];
      k := k + 1;
      if path !in seen {
        seen := seen + {path};
        var file := Lookup(disk, path);
        if Refused(file) {
          return None;
        }
        if file.Regular? {
          var counted := CountMatches(file.content, test);
          if counted.None? {
            return None;
          }
          if counted.value.1 > 0 {
            result := result + [Reference(path, file.content, counted.value.0, counted.value.1)];
            assert result[|before|].path == path;
          }
        }
        assert forall i | 0 <= i < |before| :: result[i] == before[i];
      }
    }
    assert paths[..k] == paths;
    r := Some(result);
  }

  // ---- Apply ------------------------------------------------------------------------

  predicate Current(disk: map<Path, File>, r: Reference) {
    Lookup(disk, r.path) == Regular(r.content)
  }

  function Rewritten(r: Reference, next: Token): File {
    Regular(Replace(r.content, r.token, next))
  }

  ghost predicate DistinctPaths(refs: seq<Reference>) {
    forall i, j | 0 <= i < j < |refs| :: refs[i].path != refs[j].path
  }

  /** The disk after the first `k` references were rewritten. */
  function Applied(disk: map<Path, File>, refs: seq<Reference>, next: Token, k: nat): map<Path, File>
    requires k <= |refs|
  {
    if k == 0 then disk else Applied(disk, refs, next, k - 1)[refs[k - 1].path := Rewritten(refs[k - 1], next)]
  }

  lemma {:induction false} AppliedLookup(disk: map<Path, File>, refs: seq<Reference>, next: Token, k: nat, path: Path)
    requires k <= |refs| && DistinctPaths(refs)
    ensures (forall i | 0 <= i < k :: refs[i].path != path) ==>
      Lookup(Applied(disk, refs, next, k), path) == Lookup(disk, path)
    ensures forall i | 0 <= i < k && refs[i].path == path ::
      Lookup(Applied(disk, refs, next, k), path) == Rewritten(refs[i], next)
  {
    if k > 0 {
      AppliedLookup(disk, refs, next, k - 1, path);
    }
  }

  class Disk {
    var files: map<Path, File>

    constructor (files: map<Path, File>)
      ensures this.files == files
    {
      this.files := files;
    }

    /** Apply, with no other program writing meanwhile.  `writes(i)` says whether the i-th
        replacement of a file succeeds.  A stale snapshot anywhere leaves the disk alone; a
        failed write leaves the files before it rewritten and the rest as they were. */
    method Apply(refs: seq<Reference>, next: Token, writes: nat -> bool) returns (ok: bool, done: nat)
      requires DistinctPaths(refs)
      modifies this
      ensures done <= |refs| && files == Applied(old(files), refs, next, done)
      ensures ok ==> done == |refs|
      ensures ok <==> (forall r | r in refs :: Current(old(files), r)) && (forall i | 0 <= i < |refs| :: writes(i))
      ensures (exists r | r in refs :: !Current(old(files), r)) ==> done == 0
      ensures !ok && (forall r | r in refs :: Current(old(files), r)) ==>
        done < |refs| && !writes(done) && forall i | 0 <= i < done :: writes(i)
    {
      var i := 0;
      while i < |refs|
        invariant 0 <= i <= |refs|
        invariant forall j | 0 <= j < i :: Current(files, refs[j])
        invariant files == old(files)
      {
        if !Current(files, refs[i]) {
          return false, 0;
        }
        i := i + 1;
      }
      assert forall r | r in refs :: Current(old(files), r);
      done := 0;
      while done < |refs|
        invariant 0 <= done <= |refs|
        invariant files == Applied(old(files), refs, next, done)
        invariant forall j | 0 <= j < done :: writes(j)
      {
        AppliedLookup(old(files), refs, next, done, refs[done].path);
        if !Current(files, refs[done]) {
          assert false;
        }
        if !writes(done) {
          return false, done;
        }
        files := files[refs[done].path := Rewritten(refs[done], next)];
        done := done + 1;
      }
      ok := true;
    }
  }

  // ---- The protocol -----------------------------------------------------------------

  /** Where rotateToken is.  Stopped covers a refusal, a reported failure and a crash. */
  datatype Phase =
    | Begin
    | Listed
    | IssuedNew(next: Token)
    | Checked(next: Token, written: nat, verified: bool)
    | Revoked(next: Token)
    | Stopped(issued: Option<Token>)

  /** `reviewed` is what the operator confirmed; `edited` collects the files some other program
      wrote since then. */
  datatype Session = Session(
    disk: map<Path, File>,
    active: set<Token>,
    was: Token,
    reviewed: seq<Reference>,
    phase: Phase,
    edited: set<Path>)

  /** One step of the handler, of the file system or of another program.  `found` is what
      Inspect reports at that moment: references that are current. */
  datatype Action =
    | ReviewAgain(found: seq<Reference>)
    | Issue(next: Token)
    | CheckAll
    | Verify
    | Write(ok: bool)
    | Revoke(ok: bool)
    | Crash
    | Edit(path: Path, file: File)

  function IssuedBy(phase: Phase): Option<Token> {
    match phase
    case IssuedNew(next) => Some(next)
    case Checked(next, _, _) => Some(next)
    case Revoked(next) => Some(next)
    case Stopped(issued) => issued
    case _ => None
  }

  /** After the revocation nothing is left that a crash could cut off. */
  function Stop(s: Session): Session {
    if s.phase.Revoked? then s else s.(phase := Stopped(IssuedBy(s.phase)))
  }

  /** The fingerprint compares paths and contents (SHA-256 taken as injective). */
  function Fingerprint(refs: seq<Reference>): seq<(Path, seq<Byte>)> {
    seq(|refs|, i requires 0 <= i < |refs| => (refs[i].path, refs[i].content))
  }

  /** None when the action is not the next one. */
  function Act(s: Session, a: Action): Option<Session> {
    match a
    case Crash => Some(Stop(s))
    case Edit(path, file) => Some(s.(disk := s.disk[path := file], edited := s.edited + {path}))
    case ReviewAgain(found) =>
      if s.phase != Begin || exists r | r in found :: !Current(s.disk, r) then None
      else if found == [] || Fingerprint(found) != Fingerprint(s.reviewed) then Some(Stop(s))
      else Some(s.(phase := Listed))
    case Issue(next) =>
      if s.phase != Listed || next in s.active || !Issued(next) || |next| != |s.was| then None
      else Some(s.(active := s.active + {next}, phase := IssuedNew(next)))
    case CheckAll =>
      if !s.phase.IssuedNew? then None
      else if forall r | r in s.reviewed :: Current(s.disk, r) then Some(s.(phase := Checked(s.phase.next, 0, false)))
      else Some(Stop(s))
    case Verify =>
      if !s.phase.Checked? || s.phase.verified || s.phase.written >= |s.reviewed| then None
      else if Current(s.disk, s.reviewed[s.phase.written]) then Some(s.(phase := s.phase.(verified := true)))
      else Some(Stop(s))
    case Write(ok) =>
      if !s.phase.Checked? || !s.phase.verified || s.phase.written >= |s.reviewed| then None
      else if !ok then Some(Stop(s))
      else
        var r := s.reviewed[s.phase.written];
        Some(s.(disk := s.disk[r.path := Rewritten(r, s.phase.next)],
          phase := Checked(s.phase.next, s.phase.written + 1, false)))
    case Revoke(ok) =>
      if !s.phase.Checked? || s.phase.written != |s.reviewed| then None
      else if !ok then Some(Stop(s))
      else Some(s.(active := s.active - {s.was}, phase := Revoked(s.phase.next)))
  }

  /** The references confirmed by the operator all carry the old token, which is active.  The
      files may have changed since the operator saw them. */
  ghost predicate Start(s: Session) {
    && s.phase == Begin && s.edited == {}
    && Issued(s.was) && s.was in s.active
    && DistinctPaths(s.reviewed)
    && forall r | r in s.reviewed :: r.token == s.was
  }

  ghost predicate Reaches(s: Session, acts: seq<Action>, after: Session)
    decreases |acts|
  {
    if acts == [] then s == after
    else exists mid :: Act(s, acts[0]) == Some(mid) && Reaches(mid, acts[1..], after)
  }

  ghost predicate Inv(s: Session, disk0: map<Path, File>) {
    && Issued(s.was) && DistinctPaths(s.reviewed)
    && (forall r | r in s.reviewed :: r.token == s.was)
    && (s.was in s.active || s.phase.Revoked?)
    && (IssuedBy(s.phase).Some? ==> var next := IssuedBy(s.phase).value;
          next in s.active && Issued(next) && |next| == |s.was| && next != s.was)
    && (s.phase.Checked? ==> s.phase.written <= |s.reviewed|)
    && (forall i | 0 <= i < |s.reviewed| && s.reviewed[i].path !in s.edited :: FileInv(s, disk0, i))
  }

  /** A reviewed file nobody else touched holds the old or the new text, as far as the
      rotation has come. */
  ghost predicate FileInv(s: Session, disk0: map<Path, File>, i: nat)
    requires i < |s.reviewed|
  {
    var r := s.reviewed[i];
    match s.phase
    case Checked(next, written, _) => Lookup(s.disk, r.path) == if i < written then Rewritten(r, next)
      else Regular(r.content)
    case Revoked(next) => Lookup(s.disk, r.path) == Rewritten(r, next)
    case Stopped(Some(next)) => Lookup(s.disk, r.path) == Rewritten(r, next) || Current(s.disk, r)
    case Listed => Current(s.disk, r) && Lookup(s.disk, r.path) == Lookup(disk0, r.path)
    case IssuedNew(_) => Current(s.disk, r)
    case _ => Lookup(s.disk, r.path) == Lookup(disk0, r.path)
  }

  lemma ConfirmedIsCurrent(s: Session, found: seq<Reference>, i: nat)
    requires Fingerprint(found) == Fingerprint(s.reviewed) && i < |s.reviewed|
    requires forall r | r in found :: Current(s.disk, r)
    ensures Current(s.disk, s.reviewed[i])
  {
    assert Fingerprint(found)[i] == Fingerprint(s.reviewed)[i];
    assert found[i] in found;
  }

  lemma ActKeepsFile(s: Session, disk0: map<Path, File>, a: Action, i: nat)
    requires Inv(s, disk0) && Act(s, a).Some? && i < |s.reviewed| && s.reviewed[i].path !in Act(s, a).value.edited
    ensures Act(s, a).value.reviewed == s.reviewed && FileInv(Act(s, a).value, disk0, i)
  {
    assert FileInv(s, disk0, i);
    if a.ReviewAgain? && Act(s, a).value.phase == Listed {
      ConfirmedIsCurrent(s, a.found, i);
    }
  }

  lemma ActKeepsInv(s: Session, disk0: map<Path, File>, a: Action)
    requires Inv(s, disk0) && Act(s, a).Some?
    ensures Inv(Act(s, a).value, disk0)
    ensures Act(s, a).value.reviewed == s.reviewed && Act(s, a).value.was == s.was
  {
    var after := Act(s, a).value;
    assert after.reviewed == s.reviewed && after.was == s.was;
    forall i | 0 <= i < |after.reviewed| && after.reviewed[i].path !in after.edited
      ensures FileInv(after, disk0, i)
    {
      ActKeepsFile(s, disk0, a, i);
    }
  }

  lemma {:induction false} ReachableInv(s: Session, disk0: map<Path, File>, acts: seq<Action>, after: Session)
    requires Inv(s, disk0) && Reaches(s, acts, after)
    ensures Inv(after, disk0) && after.reviewed == s.reviewed && after.was == s.was
    decreases |acts|
  {
    if acts != [] {
      var mid :| Act(s, acts[0]) == Some(mid) && Reaches(mid, acts[1..], after);
      ActKeepsInv(s, disk0, acts[0]);
      ReachableInv(mid, disk0, acts[1..], after);
    }
  }

  /** In every reachable state, whatever failed or crashed, each place of a reviewed file that
      named the old token names an active one: the file still parses to the same matches. */
  lemma ReferencesStayActive(s: Session, acts: seq<Action>, after: Session, r: Reference, m: Match)
    requires Start(s) && Reaches(s, acts, after)
    requires r in s.reviewed && r.path !in after.edited
    requires Current(s.disk, r) || IssuedBy(after.phase).Some?
    requires m in FindAll(r.content) && Within(r.content, m) && TextOf(r.content, m) == s.was
    ensures Lookup(after.disk, r.path).Regular?
    ensures var content := Lookup(after.disk, r.path).content;
      Within(content, m) && m in FindAll(content) && TextOf(content, m) in after.active
  {
    ReachableInv(s, s.disk, acts, after);
    ReferenceIsActive(after, s.disk, r, m);
  }

  lemma ReferenceIsActive(s: Session, disk0: map<Path, File>, r: Reference, m: Match)
    requires Inv(s, disk0) && (Current(disk0, r) || IssuedBy(s.phase).Some?)
    requires r in s.reviewed && r.path !in s.edited
    requires m in FindAll(r.content) && Within(r.content, m) && TextOf(r.content, m) == s.was
    ensures Lookup(s.disk, r.path).Regular?
    ensures var content := Lookup(s.disk, r.path).content;
      Within(content, m) && m in FindAll(content) && TextOf(content, m) in s.active
  {
    var i :| 0 <= i < |s.reviewed| && s.reviewed[i] == r;
    assert FileInv(s, disk0, i);
    var issued := IssuedBy(s.phase);
    if issued.Some? {
      RewriteKeepsMatch(r.content, s.was, issued.value, m);
    }
  }

  /** The old token is given up only when no reviewed file names it any more and each of its
      references names the new token. */
  lemma RevokedAfterAllWritten(s: Session, acts: seq<Action>, after: Session, r: Reference)
    requires Start(s) && Reaches(s, acts, after) && s.was !in after.active
    requires r in s.reviewed && r.path !in after.edited
    ensures after.phase.Revoked? && Lookup(after.disk, r.path) == Rewritten(r, after.phase.next)
    ensures var u := Replace(r.content, s.was, after.phase.next);
      && (forall m | m in FindAll(u) :: Within(u, m) && Within(r.content, m))
      && FindAll(u) == FindAll(r.content)
      && Tally(u, FindAll(u), s.was) == 0
      && Tally(u, FindAll(u), after.phase.next) ==
         Tally(r.content, FindAll(r.content), s.was) + Tally(r.content, FindAll(r.content), after.phase.next)
  {
    ReachableInv(s, s.disk, acts, after);
    var i :| 0 <= i < |s.reviewed| && s.reviewed[i] == r;
    assert FileInv(after, s.disk, i);
    RewriteExact(r.content, s.was, after.phase.next);
  }

  /** A write or a revocation that fails ends the rotation there, with files and tokens as they are. */
  lemma FailureStops(s: Session, a: Action)
    requires (a == Write(false) || a == Revoke(false)) && Act(s, a).Some?
    ensures Act(s, a) == Some(s.(phase := Stopped(Some(s.phase.next))))
  {
  }

  /** A snapshot that is stale when all are checked keeps every file as it is. */
  lemma StaleSnapshotWritesNothing(s: Session, acts: seq<Action>, after: Session)
    requires s.phase.IssuedNew? && (exists r | r in s.reviewed :: !Current(s.disk, r))
    requires Reaches(s, [CheckAll] + acts, after) && forall a | a in acts :: !a.Edit?
    ensures after.disk == s.disk && after.active == s.active && after.phase.Stopped?
  {
    assert ([CheckAll] + acts)[1..] == acts;
    StoppedChangesNothing(Stop(s), acts, after);
  }

  /** The i-th file has not been verified for its write. */
  predicate Unverified(phase: Phase, i: nat) {
    match phase
    case Checked(_, written, verified) => written < i || (written == i && !verified)
    case Revoked(_) => false
    case _ => true
  }

  /** The i-th file is not what was reviewed, and not verified for its write either. */
  ghost predicate Foreign(s: Session, i: nat, file: File) {
    && DistinctPaths(s.reviewed) && i < |s.reviewed| && s.was in s.active && IssuedBy(s.phase) != Some(s.was)
    && Unverified(s.phase, i)
    && Lookup(s.disk, s.reviewed[i].path) == file && file != Regular(s.reviewed[i].content)
  }

  lemma ForeignStep(s: Session, a: Action, i: nat, file: File)
    requires Foreign(s, i, file) && Act(s, a).Some? && (a.Edit? ==> a.path != s.reviewed[i].path)
    ensures Act(s, a).value.reviewed == s.reviewed && Act(s, a).value.was == s.was && Foreign(Act(s, a).value, i, file)
  {
    var after := Act(s, a).value;
    assert after.reviewed == s.reviewed && after.was == s.was;
    if a.Write? && a.ok {
      assert s.reviewed[s.phase.written].path != s.reviewed[i].path;
    }
  }

  /** A reviewed file another program changed before its own check keeps that program's text, and the
      old token is never given up. */
  lemma {:induction false} ForeignTextKept(s: Session, acts: seq<Action>, after: Session, i: nat, file: File)
    requires Foreign(s, i, file) && Reaches(s, acts, after)
    requires forall k | 0 <= k < |acts| && acts[k].Edit? :: acts[k].path != s.reviewed[i].path
    ensures after.reviewed == s.reviewed && after.was == s.was
    ensures Lookup(after.disk, s.reviewed[i].path) == file && s.was in after.active && !after.phase.Revoked?
    decreases |acts|
  {
    if acts != [] {
      var mid :| Act(s, acts[0]) == Some(mid) && Reaches(mid, acts[1..], after);
      ForeignStep(s, acts[0], i, file);
      ForeignTextKept(mid, acts[1..], after, i, file);
    }
  }

  /** What the tokens are, phase by phase; `tokens0` are those active at the start. */
  ghost predicate TokenInv(s: Session, tokens0: set<Token>) {
    && s.was in tokens0
    && match IssuedBy(s.phase)
       case None => s.active == tokens0
       case Some(next) =>
         next !in tokens0 && s.active == if s.phase.Revoked? then tokens0 - {s.was} + {next} else tokens0 + {next}
  }

  lemma {:induction false} ReachableTokens(s: Session, tokens0: set<Token>, acts: seq<Action>, after: Session)
    requires TokenInv(s, tokens0) && Reaches(s, acts, after)
    ensures TokenInv(after, tokens0) && after.was == s.was
    decreases |acts|
  {
    if acts != [] {
      var mid :| Act(s, acts[0]) == Some(mid) && Reaches(mid, acts[1..], after);
      ReachableTokens(mid, tokens0, acts[1..], after);
    }
  }

  /** The old token is inactive exactly in the last phase, and all it takes from the tokens is the
      old one: the new one, once issued, stays active, and so does every other. */
  lemma RevokedExactly(s: Session, acts: seq<Action>, after: Session)
    requires Start(s) && Reaches(s, acts, after)
    ensures after.phase.Revoked? <==> s.was !in after.active
    ensures match IssuedBy(after.phase)
      case None => after.active == s.active
      case Some(next) =>
        next !in s.active && after.active == (if after.phase.Revoked? then s.active - {s.was} else s.active) + {next}
  {
    ReachableTokens(s, s.active, acts, after);
  }

  lemma ReachesStep(s: Session, a: Action, mid: Session, acts: seq<Action>, after: Session)
    requires Act(s, a) == Some(mid) && Reaches(mid, acts, after)
    ensures Reaches(s, [a] + acts, after)
  {
    assert ([a] + acts)[1..] == acts;
  }

  /** With nobody else writing and nothing failing, what is left to write is written, and then the
      old token is revoked. */
  lemma {:induction false} WritesComplete(s: Session) returns (acts: seq<Action>, after: Session)
    requires s.phase.Checked? && !s.phase.verified && s.phase.written <= |s.reviewed| && DistinctPaths(s.reviewed)
    requires forall i | s.phase.written <= i < |s.reviewed| :: Current(s.disk, s.reviewed[i])
    ensures Reaches(s, acts, after) && after.phase == Revoked(s.phase.next) && after.edited == s.edited
    decreases |s.reviewed| - s.phase.written
  {
    var k := s.phase.written;
    if k == |s.reviewed| {
      after := Act(s, Revoke(true)).value;
      assert Reaches(after, [], after);
      ReachesStep(s, Revoke(true), after, [], after);
      acts := [Revoke(true)] + [];
    } else {
      var verified := Act(s, Verify).value;
      var written := Act(verified, Write(true)).value;
      var rest;
      rest, after := WritesComplete(written);
      ReachesStep(verified, Write(true), written, rest, after);
      ReachesStep(s, Verify, verified, [Write(true)] + rest, after);
      acts := [Verify] + ([Write(true)] + rest);
    }
  }

  /** So from every start whose review is current there is a complete rotation to any token that may
      be issued; by the lemmas above it ends with every reviewed file rewritten. */
  lemma RotationCompletes(s: Session, next: Token) returns (acts: seq<Action>, after: Session)
    requires Start(s) && s.reviewed != [] && forall i | 0 <= i < |s.reviewed| :: Current(s.disk, s.reviewed[i])
    requires next !in s.active && Issued(next) && |next| == |s.was|
    ensures Reaches(s, acts, after) && after.phase == Revoked(next) && after.edited == {}
    ensures after.active == s.active - {s.was} + {next}
  {
    var listed := Act(s, ReviewAgain(s.reviewed)).value;
    var issued := Act(listed, Issue(next)).value;
    var checked := Act(issued, CheckAll).value;
    var rest;
    rest, after := WritesComplete(checked);
    ReachesStep(issued, CheckAll, checked, rest, after);
    ReachesStep(listed, Issue(next), issued, [CheckAll] + rest, after);
    ReachesStep(s, ReviewAgain(s.reviewed), listed, [Issue(next)] + ([CheckAll] + rest), after);
    acts := [ReviewAgain(s.reviewed)] + ([Issue(next)] + ([CheckAll] + rest));
    RevokedExactly(s, acts, after);
  }

  /** A review that no longer matches the files changes no token and no file. */
  lemma StaleChangesNothing(s: Session, found: seq<Reference>, acts: seq<Action>, after: Session)
    requires s.phase == Begin && (found == [] || Fingerprint(found) != Fingerprint(s.reviewed))
    requires Reaches(s, [ReviewAgain(found)] + acts, after)
    requires forall a | a in acts :: !a.Edit?
    ensures after.disk == s.disk && after.active == s.active
  {
    var all := [ReviewAgain(found)] + acts;
    assert all[1..] == acts;
    StoppedChangesNothing(Stop(s), acts, after);
  }

  lemma {:induction false} StoppedChangesNothing(s: Session, acts: seq<Action>, after: Session)
    requires s.phase.Stopped? && Reaches(s, acts, after)
    requires forall a | a in acts :: !a.Edit?
    ensures after.disk == s.disk && after.active == s.active && after.phase.Stopped?
    decreases |acts|
  {
    if acts != [] {
      var mid :| Act(s, acts[0]) == Some(mid) && Reaches(mid, acts[1..], after);
      assert acts[0] in acts;
      StoppedChangesNothing(mid, acts[1..], after);
    }
  }
}
