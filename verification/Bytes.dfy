/** Byte strings, and the split of a byte stream into lines. */
module Bytes {

  type Byte = b: int | 0 <= b < 256

  const NL: Byte := 10
  const CR: Byte := 13
  const TAB: Byte := 9
  const SPACE: Byte := 32

  predicate HasPrefix(s: seq<Byte>, p: seq<Byte>) {
    |p| <= |s| && s[..|p|] == p
  }

  predicate HasSuffix(s: seq<Byte>, p: seq<Byte>) {
    |p| <= |s| && s[|s| - |p|..] == p
  }

  /** The lines of `s` that a newline ends, without the newline. */
  function Lines(s: seq<Byte>): seq<seq<Byte>>
    decreases |s|
  {
    if s == [] then []
    else
      var init, last := s[..|s| - 1], s[|s| - 1];
      if last == NL then Lines(init) + [Rest(init)] else Lines(init)
  }

  /** What follows the last newline of `s`. */
  function Rest(s: seq<Byte>): seq<Byte>
    decreases |s|
  {
    if s == [] || s[|s| - 1] == NL then [] else Rest(s[..|s| - 1]) + [s[|s| - 1]]
  }

  /** Lines written out, each ended by a newline. */
  function Unlines(lines: seq<seq<Byte>>): seq<Byte>
    decreases |lines|
  {
    if lines == [] then [] else Unlines(lines[..|lines| - 1]) + lines[|lines| - 1] + [NL]
  }

  lemma {:induction false} LinesAppendPlain(s: seq<Byte>, t: seq<Byte>)
    requires NL !in t
    ensures Lines(s + t) == Lines(s) && Rest(s + t) == Rest(s) + t
    decreases |t|
  {
    if t == [] {
      assert s + t == s;
    } else {
      var n := |t| - 1;
      LinesAppendPlain(s, t[..n]);
      assert (s + t)[..|s + t| - 1] == s + t[..n];
      assert Rest(s) + t[..n] + [t[n]] == Rest(s) + t;
    }
  }

  /** Splitting is a left inverse of writing lines out, with an unfinished line left over. */
  lemma {:induction false} LinesOfUnlines(lines: seq<seq<Byte>>, tail: seq<Byte>)
    requires NL !in tail && forall l | l in lines :: NL !in l
    ensures Lines(Unlines(lines) + tail) == lines && Rest(Unlines(lines) + tail) == tail
    decreases |lines|
  {
    if lines == [] {
      LinesAppendPlain([], tail);
    } else {
      var n := |lines| - 1;
      var before := Unlines(lines[..n]) + lines[n];
      LinesOfUnlines(lines[..n], lines[n]);
      assert Unlines(lines) == before + [NL];
      assert Unlines(lines)[..|Unlines(lines)| - 1] == before;
      assert lines[..n] + [lines[n]] == lines;
      LinesAppendPlain(Unlines(lines), tail);
      assert [] + tail == tail;
    }
  }

  lemma {:induction false} LinesHaveNoNewline(s: seq<Byte>)
    ensures NL !in Rest(s) && forall l | l in Lines(s) :: NL !in l
    decreases |s|
  {
    if s != [] {
      LinesHaveNoNewline(s[..|s| - 1]);
    }
  }

  /** The lines and the rest together are the whole stream: nothing is lost or moved. */
  lemma {:induction false} UnlinesOfLines(s: seq<Byte>)
    ensures Unlines(Lines(s)) + Rest(s) == s
    decreases |s|
  {
    if s != [] {
      var n := |s| - 1;
      UnlinesOfLines(s[..n]);
      assert s[..n] + [s[n]] == s;
      if s[n] == NL {
        assert Lines(s)[..|Lines(s)| - 1] == Lines(s[..n]);
      }
    }
  }
}
