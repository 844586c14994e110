/** Base64 as Go's encoding/base64 does it (sections 4 and 5 of RFC 4648). */
module Base64 {
  import opened Prelude
  import opened Bytes

  const PAD: Byte := 61

  /** The alphabet; `url` selects the URL and filename safe one. */
  function Symbol(n: int, url: bool): Byte
    requires 0 <= n < 64
  {
    if n < 26 then 65 + n
    else if n < 52 then 71 + n
    else if n < 62 then n - 4
    else if n == 62 then (if url then 45 else 43)
    else (if url then 95 else 47)
  }

  function ValueOf(b: Byte, url: bool): Option<int> {
    if 65 <= b <= 90 then Some(b - 65)
    else if 97 <= b <= 122 then Some(b - 71)
    else if 48 <= b <= 57 then Some(b + 4)
    else if b == (if url then 45 else 43) then Some(62)
    else if b == (if url then 95 else 47) then Some(63)
    else None
  }

  lemma SymbolValue(n: int, url: bool)
    requires 0 <= n < 64
    ensures ValueOf(Symbol(n, url), url) == Some(n)
    ensures 32 < Symbol(n, url) < 127 && Symbol(n, url) != PAD
  {
  }

  /** The symbols of three bytes. */
  function Four(x: Byte, y: Byte, z: Byte, url: bool): seq<Byte> {
    [Symbol(x / 4, url), Symbol(x % 4 * 16 + y / 16, url), Symbol(y % 16 * 4 + z / 64, url), Symbol(z % 64, url)]
  }

  /** Without padding: a last group of one or two bytes gives two or three symbols. */
  function EncodeRaw(s: seq<Byte>, url: bool): seq<Byte> {
    if s == [] then []
    else if |s| == 1 then Four(s[0], 0, 0, url)[..2]
    else if |s| == 2 then Four(s[0], s[1], 0, url)[..3]
    else Four(s[0], s[1], s[2], url) + EncodeRaw(s[3..], url)
  }

  function Padding(n: nat): seq<Byte> {
    if n % 3 == 1 then [PAD, PAD] else if n % 3 == 2 then [PAD] else []
  }

  /** With padding. */
  function EncodePadded(s: seq<Byte>, url: bool): seq<Byte> {
    EncodeRaw(s, url) + Padding(|s|)
  }

  /** One group of two to four symbols; the unused bits of a short one are not checked. */
  function DecodeGroup(g: seq<Byte>, url: bool): Option<seq<Byte>>
    requires 2 <= |g| <= 4
  {
    var a, b := ValueOf(g[0], url), ValueOf(g[1], url);
    var c := if |g| > 2 then ValueOf(g[2], url) else Some(0);
    var d := if |g| > 3 then ValueOf(g[3], url) else Some(0);
    if a.None? || b.None? || c.None? || d.None? then None
    else Some([a.value * 4 + b.value / 16, b.value % 16 * 16 + c.value / 4, c.value % 4 * 64 + d.value][..|g| - 1])
  }

  /** Unpadded groups. */
  function DecodeGroups(s: seq<Byte>, url: bool): Option<seq<Byte>>
    decreases |s|
  {
    if s == [] then Some([])
    else if |s| == 1 then None
    else
      match (DecodeGroup(s[..Min(|s|, 4)], url), DecodeGroups(s[Min(|s|, 4)..], url))
      case (Some(bytes), Some(rest)) => Some(bytes + rest)
      case _ => None
  }

  /** The decoder passes over newlines and carriage returns. */
  function Squeeze(s: seq<Byte>): seq<Byte> {
    if s == [] then [] else (if s[0] == NL || s[0] == CR then [] else [s[0]]) + Squeeze(s[1..])
  }

  function DecodeRaw(s: seq<Byte>, url: bool): Option<seq<Byte>> {
    DecodeGroups(Squeeze(s), url)
  }

  /** How many padding characters end `s`, at most two. */
  function Pads(s: seq<Byte>): nat {
    if |s| >= 2 && s[|s| - 1] == PAD && s[|s| - 2] == PAD then 2
    else if |s| >= 1 && s[|s| - 1] == PAD then 1
    else 0
  }

  function DecodePadded(s: seq<Byte>, url: bool): Option<seq<Byte>> {
    var q := Squeeze(s);
    if |q| % 4 != 0 then None else DecodeGroups(q[..|q| - Pads(q)], url)
  }

  // ---- Round trips ------------------------------------------------------------------

  lemma Group(x: Byte, y: Byte, z: Byte)
    ensures x / 4 < 64 && x % 4 * 16 + y / 16 < 64 && y % 16 * 4 + z / 64 < 64
    ensures x / 4 * 4 + (x % 4 * 16 + y / 16) / 16 == x
    ensures (x % 4 * 16 + y / 16) % 16 * 16 + (y % 16 * 4 + z / 64) / 4 == y
    ensures (y % 16 * 4 + z / 64) % 4 * 64 + z % 64 == z
  {
  }

  lemma GroupRoundTrip(x: Byte, y: Byte, z: Byte, n: nat, url: bool)
    requires 2 <= n <= 4 && (n < 4 ==> z == 0) && (n < 3 ==> y == 0)
    ensures DecodeGroup(Four(x, y, z, url)[..n], url) == Some([x, y, z][..n - 1])
  {
    Group(x, y, z);
    SymbolValue(x / 4, url);
    SymbolValue(x % 4 * 16 + y / 16, url);
    SymbolValue(y % 16 * 4 + z / 64, url);
    SymbolValue(z % 64, url);
    var g, bytes := Four(x, y, z, url), [x, y, z];
    if n == 2 {
      assert g[..n] == [g[0], g[1]] && bytes[..n - 1] == [x];
    } else if n == 3 {
      assert g[..n] == [g[0], g[1], g[2]] && bytes[..n - 1] == [x, y];
    } else {
      assert g[..n] == g && bytes[..n - 1] == bytes;
    }
  }

  lemma {:induction false} GroupsRoundTrip(s: seq<Byte>, url: bool)
    ensures DecodeGroups(EncodeRaw(s, url), url) == Some(s)
    decreases |s|
  {
    if |s| == 1 {
      GroupRoundTrip(s[0], 0, 0, 2, url);
      LastGroup(Four(s[0], 0, 0, url)[..2], url);
      assert [s[0], 0, 0][..1] == s;
    } else if |s| == 2 {
      GroupRoundTrip(s[0], s[1], 0, 3, url);
      LastGroup(Four(s[0], s[1], 0, url)[..3], url);
      assert [s[0], s[1], 0][..2] == s;
    } else if |s| > 2 {
      GroupRoundTrip(s[0], s[1], s[2], 4, url);
      GroupsRoundTrip(s[3..], url);
      FullGroup(Four(s[0], s[1], s[2], url), EncodeRaw(s[3..], url), url);
      FirstThree(s);
    }
  }

  lemma FirstThree(s: seq<Byte>)
    requires |s| > 2
    ensures [s[0], s[1], s[2]][..3] + s[3..] == s
  {
  }

  lemma LastGroup(g: seq<Byte>, url: bool)
    requires 2 <= |g| <= 3
    ensures DecodeGroups(g, url) == DecodeGroup(g, url)
  {
    assert g[..|g|] == g && g[|g|..] == [];
    if DecodeGroup(g, url).Some? {
      assert DecodeGroup(g, url).value + [] == DecodeGroup(g, url).value;
    }
  }

  lemma FullGroup(g: seq<Byte>, rest: seq<Byte>, url: bool)
    requires |g| == 4 && DecodeGroup(g[..4], url).Some? && DecodeGroups(rest, url).Some?
    ensures DecodeGroups(g + rest, url) == Some(DecodeGroup(g[..4], url).value + DecodeGroups(rest, url).value)
  {
    assert (g + rest)[..4] == g[..4] && (g + rest)[4..] == rest;
  }

  predicate AllSymbols(s: seq<Byte>) {
    forall i | 0 <= i < |s| :: 32 < s[i] < 127 && s[i] != PAD
  }

  lemma FourSymbols(x: Byte, y: Byte, z: Byte, url: bool)
    ensures AllSymbols(Four(x, y, z, url))
  {
  }

  lemma {:induction false} EncodedSymbols(s: seq<Byte>, url: bool)
    ensures AllSymbols(EncodeRaw(s, url))
    decreases |s|
  {
    if |s| == 1 {
      FourSymbols(s[0], 0, 0, url);
    } else if |s| == 2 {
      FourSymbols(s[0], s[1], 0, url);
    } else if |s| > 2 {
      FourSymbols(s[0], s[1], s[2], url);
      EncodedSymbols(s[3..], url);
    }
  }

  /** How many symbols `n` bytes take. */
  function RawLength(n: nat): nat {
    if n > 2 then 4 + RawLength(n - 3) else if n == 0 then 0 else n + 1
  }

  lemma {:induction false} RawLengthPadded(n: nat)
    ensures (RawLength(n) + |Padding(n)|) % 4 == 0 && RawLength(n) >= n
  {
    if n > 2 {
      RawLengthPadded(n - 3);
      assert (n - 3) % 3 == n % 3;
    }
  }

  lemma {:induction false} EncodedLength(s: seq<Byte>, url: bool)
    ensures |EncodeRaw(s, url)| == RawLength(|s|)
    decreases |s|
  {
    if |s| > 2 {
      EncodedLength(s[3..], url);
    }
  }

  lemma {:induction false} SqueezeSymbols(s: seq<Byte>)
    requires forall i | 0 <= i < |s| :: 32 < s[i]
    ensures Squeeze(s) == s
  {
    if s != [] {
      SqueezeSymbols(s[1..]);
    }
  }

  /** Line breaks may stand anywhere in an encoding. */
  lemma {:induction false} BreaksIgnored(s: seq<Byte>, t: seq<Byte>, b: Byte, url: bool)
    requires b == NL || b == CR
    ensures Squeeze(s + [b] + t) == Squeeze(s + t)
    ensures DecodeRaw(s + [b] + t, url) == DecodeRaw(s + t, url)
    decreases |s|
  {
    if s == [] {
      assert (s + [b] + t)[1..] == t && s + t == t;
      assert [] + Squeeze(t) == Squeeze(t);
    } else {
      assert (s + [b] + t)[1..] == s[1..] + [b] + t && (s + t)[1..] == s[1..] + t;
      BreaksIgnored(s[1..], t, b, url);
    }
  }

  lemma RawRoundTrip(s: seq<Byte>, url: bool)
    ensures DecodeRaw(EncodeRaw(s, url), url) == Some(s)
  {
    EncodedSymbols(s, url);
    SqueezeSymbols(EncodeRaw(s, url));
    GroupsRoundTrip(s, url);
  }

  lemma PadsAfterSymbols(raw: seq<Byte>, n: nat)
    requires AllSymbols(raw) && (n % 3 != 0 ==> raw != [])
    ensures Squeeze(raw + Padding(n)) == raw + Padding(n)
    ensures Pads(raw + Padding(n)) == |Padding(n)|
    ensures (raw + Padding(n))[..|raw + Padding(n)| - |Padding(n)|] == raw
  {
    SqueezeSymbols(raw + Padding(n));
  }

  lemma PaddedRoundTrip(s: seq<Byte>, url: bool)
    ensures DecodePadded(EncodePadded(s, url), url) == Some(s)
  {
    EncodedSymbols(s, url);
    EncodedLength(s, url);
    RawLengthPadded(|s|);
    PadsAfterSymbols(EncodeRaw(s, url), |s|);
    GroupsRoundTrip(s, url);
  }

  lemma EncodedShape(s: seq<Byte>, url: bool)
    ensures forall i | 0 <= i < |EncodePadded(s, url)| :: 32 < EncodePadded(s, url)[i] < 127
    ensures |EncodePadded(s, url)| >= |s|
  {
    EncodedSymbols(s, url);
    EncodedLength(s, url);
    RawLengthPadded(|s|);
  }
}
