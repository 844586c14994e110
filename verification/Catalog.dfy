/** The model catalog of the inference gateway: manual entries, discoveries, and the models
    agents may name (internal/store/models.go, internal/gateway/handler.go). */
module Catalog {
  import opened Prelude
  import opened Bytes

  type Model = seq<Byte>
  type ProviderId = nat

  const STAR: Byte := 42
  const SLASH: Byte := 47
  const MAX_MODEL := 256
  const MAX_SLUG := 80
  const GATE := 337

  /** One row of provider_models: entered by hand or discovered, and enabled or not. */
  datatype Row = Row(manual: bool, enabled: bool)

  type Rows = map<Model, Row>

  /** length() of UTF-8 text: the bytes that do not continue a character. */
  function Chars(m: Model): nat {
    if m == [] then 0 else (if 128 <= m[0] < 192 then 0 else 1) + Chars(m[1..])
  }

  // ---- Saving -----------------------------------------------------------------------

  /** The loop of SaveModelProviderConfig; None rolls the save back.  `trim` is TrimSpace. */
  function EnterAll(rows: Rows, models: seq<Model>, trim: Model -> Model): Option<Rows>
    decreases |models|
  {
    if models == [] then Some(rows)
    else
      match EnterAll(rows, models[..|models| - 1], trim)
      case None => None
      case Some(done) => Enter(done, trim(models[|models| - 1]))
  }

  function Enter(rows: Rows, m: Model): Option<Rows> {
    if m == [] then Some(rows)
    else if STAR in m || Chars(m) > MAX_MODEL then None
    else Some(rows[m := Row(true, true)])
  }

  /** What SaveDiscoveredModels keeps of a discovered list. */
  predicate Valid(m: Model) {
    m != [] && STAR !in m && |m| <= MAX_MODEL
  }

  function ValidOf(models: seq<Model>, trim: Model -> Model): set<Model> {
    set m | m in models && Valid(trim(m)) :: trim(m)
  }

  function FindAll(rows: Rows, models: seq<Model>, trim: Model -> Model): Rows
    decreases |models|
  {
    if models == [] then rows
    else
      var done := FindAll(rows, models[..|models| - 1], trim);
      var m := trim(models[|models| - 1]);
      if !Valid(m) then done
      else if m in done then done[m := done[m].(enabled := true)]
      else done[m := Row(false, true)]
  }

  function Discovered(rows: Rows, models: seq<Model>, trim: Model -> Model): Rows {
    var found := FindAll(rows, models, trim);
    var seen := ValidOf(models, trim);
    map m | m in found :: if !found[m].manual && m !in seen then found[m].(enabled := false) else found[m]
  }

  class Provider {
    const trim: Model -> Model
    var rows: Rows

    constructor (trim: Model -> Model)
      ensures this.trim == trim && rows == map[]
    {
      this.trim := trim;
      rows := map[];
    }

    method SaveManual(models: seq<Model>) returns (ok: bool)
      modifies this
      ensures ok == EnterAll(old(rows), models, trim).Some?
      ensures rows == if ok then EnterAll(old(rows), models, trim).value else old(rows)
    {
      var saved := rows;
      var i := 0;
      while i < |models|
        invariant 0 <= i <= |models|
        invariant EnterAll(saved, models[..i], trim) == Some(rows)
      {
        assert models[..i + 1][..i] == models[..i];
        var m := trim(models[i]);
        if m != [] {
          if STAR in m || Chars(m) > MAX_MODEL {
            EnterAllFails(saved, models, trim, i + 1);
            rows := saved;
            return false;
          }
          rows := rows[m := Row(true, true)];
        }
        i := i + 1;
      }
      assert models[..i] == models;
      ok := true;
    }

    /** SaveDiscoveredModels; a failed discovery carries no list. */
    method SaveDiscovered(models: Option<seq<Model>>)
      modifies this
      ensures rows == if models.None? then old(rows) else Discovered(old(rows), models.value, trim)
    {
      if models.None? {
        return;
      }
      var list := models.value;
      var seen: set<Model> := {};
      var i := 0;
      while i < |list|
        invariant 0 <= i <= |list|
        invariant rows == FindAll(old(rows), list[..i], trim)
        invariant seen == ValidOf(list[..i], trim)
      {
        assert list[..i + 1][..i] == list[..i];
        assert list[..i + 1] == list[..i] + [list[i]];
        var m := trim(list[i]);
        if Valid(m) {
          seen := seen + {m};
          if m in rows {
            rows := rows[m := rows[m].(enabled := true)];
          } else {
            rows := rows[m := Row(false, true)];
          }
        }
        i := i + 1;
      }
      assert list[..i] == list;
      rows := map m | m in rows :: if !rows[m].manual && m !in seen then rows[m].(enabled := false) else rows[m];
    }
  }

  lemma {:induction false} EnterAllFails(rows: Rows, models: seq<Model>, trim: Model -> Model, k: nat)
    requires k <= |models| && EnterAll(rows, models[..k], trim) == None
    ensures EnterAll(rows, models, trim) == None
    decreases |models|
  {
    if k < |models| {
      assert models[..|models| - 1][..k] == models[..k];
      EnterAllFails(rows, models[..|models| - 1], trim, k);
    } else {
      assert models[..k] == models;
    }
  }

  // ---- Any run of saves and discoveries ---------------------------------------------

  datatype Action = Manual(models: seq<Model>) | Discover(found: Option<seq<Model>>)

  function Act(rows: Rows, a: Action, trim: Model -> Model): Rows {
    match a
    case Manual(models) => (match EnterAll(rows, models, trim) case None => rows case Some(after) => after)
    case Discover(None) => rows
    case Discover(Some(models)) => Discovered(rows, models, trim)
  }

  function After(acts: seq<Action>, trim: Model -> Model): Rows
    decreases |acts|
  {
    if acts == [] then map[] else Act(After(acts[..|acts| - 1], trim), acts[|acts| - 1], trim)
  }

  function Entered(models: seq<Model>, trim: Model -> Model): set<Model> {
    set m | m in models && trim(m) != [] :: trim(m)
  }

  /** Whether a manual save commits depends on its list alone. */
  predicate Acceptable(models: seq<Model>, trim: Model -> Model) {
    forall m | m in models :: trim(m) == [] || (STAR !in trim(m) && Chars(trim(m)) <= MAX_MODEL)
  }

  /** The models ever entered manually, in saves that were accepted. */
  function EverManual(acts: seq<Action>, trim: Model -> Model): set<Model>
    decreases |acts|
  {
    if acts == [] then {}
    else
      var a := acts[|acts| - 1];
      EverManual(acts[..|acts| - 1], trim) + if a.Manual? && Acceptable(a.models, trim) then Entered(a.models, trim)
        else {}
  }

  /** The valid models of the last successful discovery. */
  function LastFound(acts: seq<Action>, trim: Model -> Model): set<Model>
    decreases |acts|
  {
    if acts == [] then {}
    else
      match acts[|acts| - 1]
      case Discover(Some(models)) => (set m | m in models && trim(m) != [] && 42 !in trim(m) && |trim(m)| <= 256 ::
        trim(m))
      case _ => LastFound(acts[..|acts| - 1], trim)
  }

  function Enabled(rows: Rows): set<Model> {
    set m | m in rows && rows[m].enabled
  }

  function ManualRows(rows: Rows): set<Model> {
    set m | m in rows && rows[m].manual
  }

  lemma {:induction false} EnterAllMeaning(rows: Rows, models: seq<Model>, trim: Model -> Model)
    ensures EnterAll(rows, models, trim).Some? <==> Acceptable(models, trim)
    ensures EnterAll(rows, models, trim).Some? ==>
              var after := EnterAll(rows, models, trim).value;
              && after.Keys == rows.Keys + Entered(models, trim)
              && (forall m | m in after :: after[m] == if m in Entered(models, trim) then Row(true, true) else rows[m])
    decreases |models|
  {
    if models != [] {
      var n := |models| - 1;
      EnterAllMeaning(rows, models[..n], trim);
      assert models == models[..n] + [models[n]];
      assert Entered(models, trim) == Entered(models[..n], trim) + if trim(models[n]) == [] then {}
        else {trim(models[n])};
      assert models[n] in models;
    }
  }

  lemma {:induction false} FindAllMeaning(rows: Rows, models: seq<Model>, trim: Model -> Model)
    ensures var after := FindAll(rows, models, trim);
      && after.Keys == rows.Keys + ValidOf(models, trim)
      && (forall m | m in after :: after[m] ==
            Row(m in rows && rows[m].manual, m in ValidOf(models, trim) || (m in rows && rows[m].enabled)))
    decreases |models|
  {
    if models != [] {
      var n := |models| - 1;
      FindAllMeaning(rows, models[..n], trim);
      assert models == models[..n] + [models[n]];
      assert ValidOf(models, trim) == ValidOf(models[..n], trim) + if Valid(trim(models[n])) then {trim(models[n])}
        else {};
    }
  }

  /** The rows after a history with these manual entries and this last discovery. */
  ghost predicate Offers(rows: Rows, manual: set<Model>, found: set<Model>) {
    && ManualRows(rows) == manual
    && Enabled(rows) == manual + found
    && forall m | m in rows :: m != [] && STAR !in m
  }

  lemma ManualStep(rows: Rows, manual: set<Model>, found: set<Model>, models: seq<Model>, trim: Model -> Model)
    requires Offers(rows, manual, found) && Acceptable(models, trim)
    ensures EnterAll(rows, models, trim).Some?
      && Offers(EnterAll(rows, models, trim).value, manual + Entered(models, trim), found)
  {
    EnterAllMeaning(rows, models, trim);
    var after := EnterAll(rows, models, trim).value;
    forall m ensures m in ManualRows(after) <==> m in manual + Entered(models, trim) {
      assert m in rows && rows[m].manual <==> m in ManualRows(rows);
    }
    forall m ensures m in Enabled(after) <==> m in manual + Entered(models, trim) + found {
      assert m in rows && rows[m].enabled <==> m in Enabled(rows);
    }
  }

  lemma DiscoverStep(rows: Rows, manual: set<Model>, found: set<Model>, models: seq<Model>, trim: Model -> Model)
    requires Offers(rows, manual, found)
    ensures Offers(Discovered(rows, models, trim), manual, ValidOf(models, trim))
  {
    FindAllMeaning(rows, models, trim);
    var after := Discovered(rows, models, trim);
    forall m ensures m in ManualRows(after) <==> m in manual {
      assert m in rows && rows[m].manual <==> m in ManualRows(rows);
    }
    forall m ensures m in Enabled(after) <==> m in manual + ValidOf(models, trim) {
      assert m in rows && rows[m].manual <==> m in ManualRows(rows);
      assert m in rows && rows[m].enabled <==> m in Enabled(rows);
    }
  }

  /** The models a provider offers are exactly those ever entered manually plus the last
      successful discovery's valid ones; none contains a wildcard. */
  lemma {:induction false} OfferedExactly(acts: seq<Action>, trim: Model -> Model)
    ensures Offers(After(acts, trim), EverManual(acts, trim), LastFound(acts, trim))
    decreases |acts|
  {
    if acts != [] {
      var n := |acts| - 1;
      var rows, manual, found := After(acts[..n], trim), EverManual(acts[..n], trim), LastFound(acts[..n], trim);
      OfferedExactly(acts[..n], trim);
      match acts[n] {
        case Manual(models) =>
          if Acceptable(models, trim) {
            ManualStep(rows, manual, found, models, trim);
          } else {
            EnterAllMeaning(rows, models, trim);
          }
        case Discover(None) =>
        case Discover(Some(models)) =>
          DiscoverStep(rows, manual, found, models, trim);
          assert ValidOf(models, trim) == LastFound(acts, trim);
      }
    }
  }

  // ---- Naming a model ---------------------------------------------------------------

  datatype Entry = Entry(slug: seq<Byte>, enabled: bool, rows: Rows)

  type Providers = map<ProviderId, Entry>

  /** Slugs are unique, and match ^[a-z0-9][a-z0-9-]{0,79}$. */
  predicate Keyed(ps: Providers) {
    && (forall p | p in ps :: 1 <= |ps[p].slug| <= MAX_SLUG && SLASH !in ps[p].slug)
    && (forall p, q | p in ps && q in ps && p != q :: ps[p].slug != ps[q].slug)
  }

  function Id(slug: seq<Byte>, m: Model): seq<Byte> {
    slug + [SLASH] + m
  }

  predicate Offered(ps: Providers, p: ProviderId, m: Model) {
    p in ps && ps[p].enabled && m in ps[p].rows && ps[p].rows[m].enabled && STAR !in m
  }

  /** AvailableModels, without its order. */
  function Available(ps: Providers): set<seq<Byte>> {
    set p, m | p in ps && m in ps[p].rows && Offered(ps, p, m) :: Id(ps[p].slug, m)
  }

  lemma IdSplits(s: seq<Byte>, m: Model, t: seq<Byte>, n: Model)
    requires SLASH !in s && SLASH !in t && Id(s, m) == Id(t, n)
    ensures s == t && m == n
  {
    var id := Id(s, m);
    FirstSlash(s, m);
    FirstSlash(t, n);
    assert id[..|s|] == s && id[..|t|] == t;
    assert id[|s| + 1..] == m && id[|t| + 1..] == n;
  }

  lemma FirstSlash(s: seq<Byte>, m: Model)
    requires SLASH !in s
    ensures Id(s, m)[|s|] == SLASH && forall i | 0 <= i < |s| :: Id(s, m)[i] != SLASH
  {
    assert forall i | 0 <= i < |s| :: Id(s, m)[i] == s[i];
  }

  /** ResolveModel: cut at the first slash, then look the pair up.  It accepts exactly the listed
      ids, also when the model holds slashes, and returns the pair the id was made of. */
  method ResolveModel(ps: Providers, selected: seq<Byte>) returns (r: Option<(ProviderId, Model)>)
    requires Keyed(ps)
    ensures r.Some? <==> selected in Available(ps)
    ensures r.Some? ==>
      var p, m := r.value.0, r.value.1;
      && p in ps && ps[p].enabled && m in ps[p].rows && ps[p].rows[m].enabled && STAR !in m
      && ps[p].slug + [SLASH] + m == selected
    ensures r.None? ==>
      forall p, m | p in ps && ps[p].enabled && m in ps[p].rows && ps[p].rows[m].enabled && STAR !in m ::
        ps[p].slug + [SLASH] + m != selected
    ensures forall p, m :: r == Some((p, m)) <==> Offered(ps, p, m) && Id(ps[p].slug, m) == selected
  {
    var i := 0;
    while i < |selected| && selected[i] != SLASH
      invariant 0 <= i <= |selected|
      invariant SLASH !in selected[..i]
    {
      assert selected[..i + 1] == selected[..i] + [selected[i]];
      i := i + 1;
    }
    if i == |selected| {
      assert selected[..i] == selected;
      forall p, m | Offered(ps, p, m) ensures Id(ps[p].slug, m) != selected {
        assert SLASH in Id(ps[p].slug, m);
      }
      return None;
    }
    var slug, model := selected[..i], selected[i + 1..];
    assert selected == Id(slug, model);
    forall p, m | Offered(ps, p, m) && Id(ps[p].slug, m) == selected ensures ps[p].slug == slug && m == model {
      IdSplits(ps[p].slug, m, slug, model);
    }
    if p :| p in ps && ps[p].slug == slug && Offered(ps, p, model) {
      r := Some((p, model));
      assert Id(ps[p].slug, model) in Available(ps);
    } else {
      r := None;
    }
  }

  /** The length check of infer. */
  predicate PassesGate(selected: seq<Byte>) {
    selected != [] && |selected| <= GATE
  }

  /** A listed id passes the gate exactly when slug and model fit it, which they do when the model
      is at most 256 bytes, as every discovered one is. */
  lemma GateExactly(ps: Providers, p: ProviderId, m: Model)
    requires Keyed(ps) && Offered(ps, p, m)
    ensures PassesGate(Id(ps[p].slug, m)) <==> |ps[p].slug| + |m| <= GATE - 1
    ensures |m| <= MAX_MODEL ==> PassesGate(Id(ps[p].slug, m))
  {
  }

  /** The store counts characters: it accepts a manual model of 256 two-byte characters, which is
      then listed but stopped at the gate. */
  lemma LongManualModelIsStopped(slug: seq<Byte>, trim: Model -> Model)
    requires 1 <= |slug| <= MAX_SLUG && SLASH !in slug && trim(TwoByte(MAX_MODEL)) == TwoByte(MAX_MODEL)
    ensures exists m :: EnterAll(map[], [m], trim).Some?
              && Id(slug, m) in Available(map[0 := Entry(slug, true, EnterAll(map[], [m], trim).value)])
              && !PassesGate(Id(slug, m))
  {
    var m := TwoByte(MAX_MODEL);
    TwoByteChars(MAX_MODEL);
    var none: Rows := map[];
    var list: seq<Model> := [m];
    assert list[..0] == [] && EnterAll(none, list[..0], trim) == Some(none);
    assert EnterAll(none, list, trim) == Enter(none, m);
    var ps := map[0 := Entry(slug, true, EnterAll(map[], [m], trim).value)];
    assert Offered(ps, 0, m);
    assert Id(ps[0].slug, m) in Available(ps);
  }

  /** `n` times the two bytes of U+00E9. */
  function TwoByte(n: nat): Model {
    if n == 0 then [] else [195, 169] + TwoByte(n - 1)
  }

  lemma {:induction false} TwoByteChars(n: nat)
    ensures Chars(TwoByte(n)) == n && |TwoByte(n)| == 2 * n && STAR !in TwoByte(n)
  {
    if n > 0 {
      TwoByteChars(n - 1);
      OneMoreChar(TwoByte(n - 1));
    }
  }

  lemma OneMoreChar(m: Model)
    ensures Chars([195, 169] + m) == 1 + Chars(m)
  {
    var two: Model := [195, 169];
    var one: Model := [169];
    assert (two + m)[1..] == one + m;
    assert (one + m)[1..] == m;
    assert Chars(one + m) == Chars(m);
  }
}
