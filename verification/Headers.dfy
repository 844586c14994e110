/** The header value codec of the MCP client, and the tool names it is used on
    (internal/mcp/client.go, internal/store/store.go). */
module Headers {
  import opened Prelude
  import opened Bytes
  import opened Base64

  const OPEN: seq<Byte> := [61, 63, 98, 97, 115, 101, 54, 52, 63]  // =?base64?
  const CLOSE: seq<Byte> := [63, 61]  // ?=

  predicate Printable(b: Byte) {
    b == TAB || 32 <= b <= 126
  }

  /** Every rune is a tab or printable ASCII.  A byte of 128 or more belongs to a rune outside
      that range, or decodes to the replacement character, so looking at bytes is the same. */
  predicate AsciiHeaderValue(value: seq<Byte>) {
    forall i | 0 <= i < |value| :: Printable(value[i])
  }

  predicate Blank(b: Byte) {
    b == SPACE || b == TAB
  }

  predicate LooksEncoded(value: seq<Byte>) {
    HasPrefix(value, OPEN) && HasSuffix(value, CLOSE)
  }

  /** strings.Trim changes nothing. */
  predicate Trimmed(value: seq<Byte>) {
    value == [] || (!Blank(value[0]) && !Blank(value[|value| - 1]))
  }

  predicate Passes(value: seq<Byte>) {
    AsciiHeaderValue(value) && Trimmed(value) && !LooksEncoded(value)
  }

  function EncodeHeaderValue(value: seq<Byte>): seq<Byte> {
    if Passes(value) then value else OPEN + EncodePadded(value, false) + CLOSE
  }

  /** The reading a receiver applies to such a header. */
  function DecodeHeaderValue(header: seq<Byte>): Option<seq<Byte>> {
    if LooksEncoded(header) && |header| >= |OPEN| + |CLOSE| then DecodePadded(header[|OPEN|..|header| - |CLOSE|], false)
    else Some(header)
  }

  /** Every value comes back, also one that already looks encoded. */
  lemma HeaderRoundTrip(value: seq<Byte>)
    ensures DecodeHeaderValue(EncodeHeaderValue(value)) == Some(value)
  {
    if !Passes(value) {
      var header := EncodeHeaderValue(value);
      assert header[..|OPEN|] == OPEN;
      assert header[|header| - |CLOSE|..] == CLOSE;
      assert header[|OPEN|..|header| - |CLOSE|] == EncodePadded(value, false);
      PaddedRoundTrip(value, false);
    }
  }

  lemma HeaderInjective(v: seq<Byte>, w: seq<Byte>)
    requires EncodeHeaderValue(v) == EncodeHeaderValue(w)
    ensures v == w
  {
    HeaderRoundTrip(v);
    HeaderRoundTrip(w);
  }

  /** What goes on the wire is tab and printable ASCII, with no blank at either end. */
  lemma HeaderPrintable(value: seq<Byte>)
    ensures var h := EncodeHeaderValue(value);
      && (forall i | 0 <= i < |h| :: h[i] == 9 || 32 <= h[i] <= 126)
      && (h != [] ==> h[0] !in {9, 32} && h[|h| - 1] !in {9, 32})
  {
    EncodedShape(value, false);
  }

  /** A receiver that compares the header with the value itself accepts exactly the values that
      pass unencoded. */
  lemma DirectComparisonExactly(value: seq<Byte>)
    ensures EncodeHeaderValue(value) == value <==>
      && (forall i | 0 <= i < |value| :: value[i] == 9 || 32 <= value[i] <= 126)
      && (value != [] ==> value[0] !in {9, 32} && value[|value| - 1] !in {9, 32})
      && !([61, 63, 98, 97, 115, 101, 54, 52, 63] <= value && |value| >= 2 && value[|value| - 2..] == [63, 61])
  {
    EncodedShape(value, false);
  }

  // ---- Exposed tool names -----------------------------------------------------------

  predicate NameByte(b: Byte) {
    97 <= b <= 122 || 65 <= b <= 90 || 48 <= b <= 57 || b == 95 || b == 45
  }

  /** ^[a-z0-9][a-z0-9-]*$ */
  predicate ValidSlug(slug: seq<Byte>) {
    slug != [] && slug[0] != 45 && forall i | 0 <= i < |slug| ::
      97 <= slug[i] <= 122 || 48 <= slug[i] <= 57 || slug[i] == 45
  }

  /** sanitizeTool over the runes of the upstream name: any other rune becomes '_'. */
  function SanitizeTool(name: seq<int>): (r: seq<Byte>)
    ensures |r| == |name|
    ensures forall i | 0 <= i < |r| ::
      NameByte(r[i]) && r[i] == if 0 <= name[i] < 256 && NameByte(name[i]) then name[i] else 95
  {
    if name == [] then []
    else (if 0 <= name[0] < 256 && NameByte(name[0]) then [name[0]] else [95]) + SanitizeTool(name[1..])
  }

  /** Eight hexadecimal digits. */
  predicate Hex8(s: seq<Byte>) {
    |s| == 8 && forall i | 0 <= i < 8 :: 48 <= s[i] <= 57 || 97 <= s[i] <= 102
  }

  const NAME_LIMIT := 128

  /** `digest` is the start of the SHA-256 of the full name, in hexadecimal. */
  function ExposedToolName(slug: seq<Byte>, upstream: seq<int>, digest: seq<Byte> -> seq<Byte>): seq<Byte> {
    var name := slug + [95, 95] + SanitizeTool(upstream);
    if |name| <= NAME_LIMIT then name
    else
      var suffix := [95] + digest(name);
      if |suffix| <= NAME_LIMIT then name[..NAME_LIMIT - |suffix|] + suffix else suffix
  }

  /** The name before it is cut to length. */
  function FullName(slug: seq<Byte>, upstream: seq<int>): seq<Byte> {
    slug + [95, 95] + SanitizeTool(upstream)
  }

  /** Full names that fit are exposed as they are; of those that do not, different ones are exposed
      differently as long as their digests differ. */
  lemma ExposedDistinct(slug: seq<Byte>, upstream: seq<int>, slug': seq<Byte>, upstream': seq<int>,
                        digest: seq<Byte> -> seq<Byte>)
    requires forall s :: Hex8(digest(s))
    ensures |FullName(slug, upstream)| <= 128 ==> ExposedToolName(slug, upstream, digest) == FullName(slug, upstream)
    ensures
      (&& |FullName(slug, upstream)| > 128 && |FullName(slug', upstream')| > 128
       && digest(FullName(slug, upstream)) != digest(FullName(slug', upstream'))) ==>
      ExposedToolName(slug, upstream, digest) != ExposedToolName(slug', upstream', digest)
    ensures |FullName(slug, upstream)| > 128 ==>
      var name := ExposedToolName(slug, upstream, digest);
      |name| == 128 && name[..119] == FullName(slug, upstream)[..119] && name[120..] == digest(FullName(slug, upstream))
  {
    var full, full' := FullName(slug, upstream), FullName(slug', upstream');
    assert Hex8(digest(full)) && Hex8(digest(full'));
    var name, name' := ExposedToolName(slug, upstream, digest), ExposedToolName(slug', upstream', digest);
    if |full| > 128 {
      assert name == full[..119] + ([95] + digest(full));
      assert name[120..] == digest(full) && name[..119] == full[..119];
    }
    if |full'| > 128 {
      assert name' == full'[..119] + ([95] + digest(full'));
      assert name'[120..] == digest(full');
    }
  }

  predicate NameBytes(s: seq<Byte>) {
    forall i | 0 <= i < |s| :: NameByte(s[i])
  }

  /** Every exposed name fits the limit and is made of name bytes. */
  lemma ExposedNameShape(slug: seq<Byte>, upstream: seq<int>, digest: seq<Byte> -> seq<Byte>)
    requires ValidSlug(slug) && forall s :: Hex8(digest(s))
    ensures var name := ExposedToolName(slug, upstream, digest); 2 < |name| <= NAME_LIMIT && NameBytes(name)
  {
    var full := slug + [95, 95] + SanitizeTool(upstream);
    assert NameBytes(full);
    assert Hex8(digest(full));
  }

  lemma NameBytesPass(name: seq<Byte>)
    requires name != [] && NameBytes(name)
    ensures Passes(name)
  {
    assert NameByte(name[0]) && NameByte(name[|name| - 1]);
    assert !HasPrefix(name, OPEN) by {
      assert name[0] != OPEN[0];
    }
  }

  /** It travels unencoded, so the server's direct comparison of Mcp-Name with the called name
      agrees with the client's header. */
  lemma ExposedNameTravels(slug: seq<Byte>, upstream: seq<int>, digest: seq<Byte> -> seq<Byte>)
    requires ValidSlug(slug) && forall s :: Hex8(digest(s))
    ensures var name := ExposedToolName(slug, upstream, digest); EncodeHeaderValue(name) == name
  {
    ExposedNameShape(slug, upstream, digest);
    NameBytesPass(ExposedToolName(slug, upstream, digest));
  }
}
