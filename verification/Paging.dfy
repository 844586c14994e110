/** Cursor pagination of tools/list and the client loop that follows it
    (internal/mcp/handler.go, internal/mcp/client.go). */
module Paging {
  import opened Prelude
  import opened Bytes
  import opened Base64

  const PAGE_SIZE := 200
  const MAX_PAGES := 100
  const MAX_INT := 0x7FFF_FFFF_FFFF_FFFF

  // ---- Decimal ----------------------------------------------------------------------

  function Itoa(n: nat): seq<Byte> {
    if n < 10 then [48 + n] else Itoa(n / 10) + [48 + n % 10]
  }

  /** One or more decimal digits. */
  function ParseDigits(s: seq<Byte>): Option<int>
    decreases |s|
  {
    if s == [] || !(48 <= s[|s| - 1] <= 57) then None
    else if |s| == 1 then Some(s[0] - 48)
    else
      match ParseDigits(s[..|s| - 1])
      case None => None
      case Some(n) => Some(n * 10 + s[|s| - 1] - 48)
  }

  /** strconv.Atoi: an optional sign, digits, and the range of a 64-bit integer. */
  function Atoi(s: seq<Byte>): Option<int> {
    if s == [] then None
    else
      var signed := s[0] == 43 || s[0] == 45;
      match ParseDigits(if signed then s[1..] else s)
      case None => None
      case Some(n) =>
        var v: int := if s[0] == 45 then -n else n;
        if -MAX_INT - 1 <= v <= MAX_INT then Some(v) else None
  }

  lemma {:induction false} ItoaDigits(n: nat)
    ensures Itoa(n) != [] && 48 <= Itoa(n)[0] <= 57 && ParseDigits(Itoa(n)) == Some(n)
  {
    if n >= 10 {
      ItoaDigits(n / 10);
      assert Itoa(n)[..|Itoa(n)| - 1] == Itoa(n / 10);
    }
  }

  // ---- Cursors ----------------------------------------------------------------------

  function EncodeCursor(offset: nat): seq<Byte> {
    EncodeRaw(Itoa(offset), true)
  }

  function DecodeCursor(cursor: seq<Byte>): Option<nat> {
    if cursor == [] then Some(0)
    else
      match DecodeRaw(cursor, true)
      case None => None
      case Some(decoded) =>
        match Atoi(decoded)
        case None => None
        case Some(offset) => if offset < 0 then None else Some(offset)
  }

  lemma CursorRoundTrip(offset: nat)
    requires offset <= MAX_INT
    ensures EncodeCursor(offset) != [] && DecodeCursor(EncodeCursor(offset)) == Some(offset)
  {
    ItoaDigits(offset);
    RawRoundTrip(Itoa(offset), true);
  }

  // ---- The server -------------------------------------------------------------------

  /** A page; an empty `next` is an absent nextCursor. */
  datatype Page<T> = Page(items: seq<T>, next: seq<Byte>)

  /** tools/list over the agent's catalog; None is the invalid-cursor error. */
  method ListTools<T>(tools: seq<T>, cursor: seq<Byte>) returns (r: Option<Page<T>>)
    ensures r == PageAt(tools, cursor)
  {
    var offset := DecodeCursor(cursor);
    if offset.None? || offset.value > |tools| {
      return None;
    }
    var end := offset.value + PAGE_SIZE;
    if end > |tools| {
      end := |tools|;
    }
    var items: seq<T> := [];
    var i := offset.value;
    while i < end
      invariant offset.value <= i <= end
      invariant items == tools[offset.value..i]
    {
      items := items + [tools[i]];
      i := i + 1;
    }
    r := Some(Page(items, if end < |tools| then EncodeCursor(end) else []));
  }

  function PageAt<T>(tools: seq<T>, cursor: seq<Byte>): Option<Page<T>> {
    match DecodeCursor(cursor)
    case None => None
    case Some(offset) =>
      if offset > |tools| then None
      else
        var end := Min(offset + PAGE_SIZE, |tools|);
        Some(Page(tools[offset..end], if end < |tools| then EncodeCursor(end) else []))
  }

  /** Any offset inside the catalog gives the next 200 tools from there; one past its end is refused,
      and the page that ends the catalog leads nowhere. */
  lemma PageAtOffset<T>(tools: seq<T>, offset: nat)
    requires offset <= MAX_INT
    ensures PageAt(tools, EncodeCursor(offset)) ==
      if offset > |tools| then None
      else if offset + 200 < |tools| then Some(Page(tools[offset..offset + 200], EncodeCursor(offset + 200)))
      else Some(Page(tools[offset..], []))
  {
    CursorRoundTrip(offset);
    if offset <= |tools| {
      assert tools[offset..] == tools[offset..|tools|];
    }
  }

  /** A cursor that spells a negative number is refused. */
  lemma NegativeCursor<T>(tools: seq<T>, n: nat)
    requires n > 0
    ensures PageAt(tools, EncodeRaw([45] + Itoa(n), true)) == None
  {
    var text := [45] + Itoa(n);
    ItoaDigits(n);
    RawRoundTrip(text, true);
    assert text[1..] == Itoa(n);
    assert DecodeCursor(EncodeRaw(text, true)) == None by {
      assert Atoi(text).Some? ==> Atoi(text).value < 0;
    }
  }

  /** So is one that spells a number beyond 64 bits. */
  lemma HugeCursor<T>(tools: seq<T>, n: nat)
    requires n > 0x7FFF_FFFF_FFFF_FFFF
    ensures PageAt(tools, EncodeRaw(Itoa(n), true)) == None
  {
    ItoaDigits(n);
    RawRoundTrip(Itoa(n), true);
    assert DecodeCursor(EncodeRaw(Itoa(n), true)) == None;
  }

  // ---- Following the cursor ---------------------------------------------------------

  /** The cursor that a client following nextCursor holds at an offset: none at the start. */
  function CursorAt(offset: nat): seq<Byte> {
    if offset == 0 then [] else EncodeCursor(offset)
  }

  /** The page at an offset holds the next stretch and leads to the offset after it, or to none. */
  lemma PageFrom<T>(tools: seq<T>, offset: nat)
    requires |tools| <= MAX_INT && (offset == 0 || offset < |tools|)
    ensures var next := offset + PAGE_SIZE;
      PageAt(tools, CursorAt(offset))
      == Some(Page(tools[offset..Min(next, |tools|)], if next < |tools| then CursorAt(next) else []))
    ensures offset + PAGE_SIZE < |tools| ==> CursorAt(offset + PAGE_SIZE) != []
    ensures tools[..offset] + tools[offset..Min(offset + PAGE_SIZE, |tools|)]
      == tools[..Min(offset + PAGE_SIZE, |tools|)]
  {
    if offset > 0 {
      CursorRoundTrip(offset);
    }
    if offset + PAGE_SIZE < |tools| {
      CursorRoundTrip(offset + PAGE_SIZE);
    }
  }

  /** Page `k` holds the k-th stretch of the catalog and leads to page `k + 1`, or to none when it
      was the last. */
  lemma PageOf<T>(tools: seq<T>, k: nat)
    requires |tools| <= MAX_INT && (k == 0 || k * PAGE_SIZE < |tools|)
    ensures var lo, hi := k * PAGE_SIZE, (k + 1) * PAGE_SIZE;
      PageAt(tools, CursorAt(lo)) == Some(Page(tools[lo..Min(hi, |tools|)], if hi < |tools| then CursorAt(hi) else []))
  {
    PageFrom(tools, k * PAGE_SIZE);
  }

  /** Following nextCursor from the empty cursor ends, and lists every tool once, in order. */
  method FollowAll<T>(tools: seq<T>) returns (all: seq<T>)
    requires |tools| <= MAX_INT
    ensures all == tools
  {
    all := [];
    var cursor: seq<Byte> := [];
    ghost var offset := 0;
    while true
      invariant offset == 0 || 0 < offset < |tools|
      invariant cursor == CursorAt(offset)
      invariant all == tools[..offset]
      decreases |tools| - offset
    {
      PageFrom(tools, offset);
      var page := ListTools(tools, cursor);
      all := all + page.value.items;
      if page.value.next == [] {
        break;
      }
      cursor := page.value.next;
      offset := offset + PAGE_SIZE;
    }
    assert tools[..|tools|] == tools;
  }

  /** The loop of Discover against such a server: the whole catalog exactly when it fits in the
      allowed pages, an error otherwise. */
  method Discover<T>(catalog: seq<T>) returns (r: Option<seq<T>>)
    requires |catalog| <= MAX_INT
    ensures r == if |catalog| <= MAX_PAGES * PAGE_SIZE then Some(catalog) else None
  {
    var tools: seq<T> := [];
    var cursor: seq<Byte> := [];
    var page := 0;
    while true
      invariant 0 <= page <= MAX_PAGES && (page == 0 || page * PAGE_SIZE < |catalog|)
      invariant cursor == CursorAt(page * PAGE_SIZE)
      invariant tools == catalog[..page * PAGE_SIZE]
      decreases MAX_PAGES - page
    {
      if page >= MAX_PAGES {
        return None;
      }
      PageFrom(catalog, page * PAGE_SIZE);
      var result := ListTools(catalog, cursor);
      tools := tools + result.value.items;
      if result.value.next == [] {
        break;
      }
      cursor := result.value.next;
      page := page + 1;
    }
    assert catalog[..|catalog|] == catalog;
    r := Some(tools);
  }
}
