/** How the words of a Google Workspace request are cut out of its fields
    (cmd/toolmux/gws_normalize.go, splitGWSPath). */
module GwsPath {

  predicate Separator(c: char) {
    c == '.' || c == '/' || c == ' '
  }

  predicate Token(t: string) {
    t != "" && forall i | 0 <= i < |t| :: !Separator(t[i])
  }

  predicate AllTokens(ts: seq<string>) {
    forall i | 0 <= i < |ts| :: Token(ts[i])
  }

  /** The unfinished word at the end of `s`. */
  function Word(s: string): string
    decreases |s|
  {
    if s == "" || Separator(s[|s| - 1]) then "" else Word(s[..|s| - 1]) + [s[|s| - 1]]
  }

  function NonEmpty(w: string): seq<string> {
    if w == "" then [] else [w]
  }

  /** The words of `s` that a separator ends. */
  function Closed(s: string): seq<string>
    decreases |s|
  {
    if s == "" then []
    else
      var init := s[..|s| - 1];
      Closed(init) + if Separator(s[|s| - 1]) then NonEmpty(Word(init)) else []
  }

  /** strings.FieldsFunc over the separators. */
  function Fields(s: string): seq<string> {
    Closed(s) + NonEmpty(Word(s))
  }

  function FieldsOfAll(values: seq<string>): seq<string>
    decreases |values|
  {
    if values == [] then [] else FieldsOfAll(values[..|values| - 1]) + Fields(values[|values| - 1])
  }

  function Join(tokens: seq<string>, sep: char): string
    decreases |tokens|
  {
    if tokens == [] then ""
    else if |tokens| == 1 then tokens[0]
    else Join(tokens[..|tokens| - 1], sep) + [sep] + tokens[|tokens| - 1]
  }

  lemma {:induction false} WordIsToken(s: string)
    ensures Word(s) == "" || Token(Word(s))
    decreases |s|
  {
    if s != "" {
      WordIsToken(s[..|s| - 1]);
    }
  }

  lemma {:induction false} FieldsAreTokens(s: string)
    ensures AllTokens(Closed(s)) && AllTokens(Fields(s))
    decreases |s|
  {
    WordIsToken(s);
    if s != "" {
      FieldsAreTokens(s[..|s| - 1]);
      WordIsToken(s[..|s| - 1]);
    }
  }

  lemma {:induction false} AllFieldsAreTokens(values: seq<string>)
    ensures AllTokens(FieldsOfAll(values))
    decreases |values|
  {
    if values != [] {
      AllFieldsAreTokens(values[..|values| - 1]);
      FieldsAreTokens(values[|values| - 1]);
    }
  }

  lemma OneMoreChar(s: string, c: char)
    ensures Word(s + [c]) == if Separator(c) then "" else Word(s) + [c]
    ensures Closed(s + [c]) == Closed(s) + if Separator(c) then NonEmpty(Word(s)) else []
  {
    assert (s + [c])[..|s|] == s;
  }

  lemma {:induction false} WordsAfter(u: string, t: string)
    requires Word(u) == ""
    ensures Word(u + t) == Word(t) && Closed(u + t) == Closed(u) + Closed(t)
    decreases |t|
  {
    if t == "" {
      assert u + t == u;
    } else {
      var init, last := t[..|t| - 1], t[|t| - 1];
      WordsAfter(u, init);
      assert t == init + [last] && u + t == u + init + [last];
      OneMoreChar(init, last);
      OneMoreChar(u + init, last);
    }
  }

  /** A separator cuts: what stands before it and after it is split on its own. */
  lemma FieldsCut(s: string, sep: char, t: string)
    requires Separator(sep)
    ensures Fields(s + [sep] + t) == Fields(s) + Fields(t)
  {
    var u := s + [sep];
    assert u[..|u| - 1] == s;
    WordsAfter(u, t);
  }

  /** A dot, a slash and a space each do; a field of one token is that token. */
  lemma ThreeSeparators(s: string, t: string)
    ensures Fields(s + "." + t) == Fields(s) + Fields(t)
    ensures Fields(s + "/" + t) == Fields(s) + Fields(t)
    ensures Fields(s + " " + t) == Fields(s) + Fields(t)
    ensures '.' !in s && '/' !in s && ' ' !in s ==> Fields(s) == NonEmpty(s)
  {
    assert "." == ['.'] && "/" == ['/'] && " " == [' '];
    FieldsCut(s, '.', t);
    FieldsCut(s, '/', t);
    FieldsCut(s, ' ', t);
    if '.' !in s && '/' !in s && ' ' !in s && s != "" {
      assert forall i | 0 <= i < |s| :: s[i] in s;
      FieldsOfToken(s);
    }
  }

  lemma {:induction false} FieldsOfToken(t: string)
    requires t == "" || Token(t)
    ensures Word(t) == t && Closed(t) == [] && Fields(t) == NonEmpty(t)
    decreases |t|
  {
    if t != "" {
      var init := t[..|t| - 1];
      FieldsOfToken(init);
      assert init + [t[|t| - 1]] == t;
    }
  }

  lemma {:induction false} FieldsOfTokens(values: seq<string>)
    requires AllTokens(values)
    ensures FieldsOfAll(values) == values
    decreases |values|
  {
    if values != [] {
      var n := |values| - 1;
      FieldsOfTokens(values[..n]);
      FieldsOfToken(values[n]);
      assert values == values[..n] + [values[n]];
    }
  }

  /** Splitting undoes joining, whichever separator joined. */
  lemma {:induction false} FieldsOfJoin(tokens: seq<string>, sep: char)
    requires Separator(sep) && AllTokens(tokens)
    ensures Fields(Join(tokens, sep)) == tokens
    decreases |tokens|
  {
    if |tokens| == 1 {
      FieldsOfToken(tokens[0]);
    } else if tokens != [] {
      var n := |tokens| - 1;
      FieldsOfJoin(tokens[..n], sep);
      FieldsOfOneMore(Join(tokens[..n], sep), sep, tokens[n]);
      assert tokens[..n] + [tokens[n]] == tokens;
    }
  }

  lemma FieldsOfOneMore(s: string, sep: char, t: string)
    requires Separator(sep) && Token(t)
    ensures Fields(s + [sep] + t) == Fields(s) + [t]
  {
    FieldsCut(s, sep, t);
    FieldsOfToken(t);
  }

  /** The words are cut at the separators, and empty ones are dropped. */
  method SplitPath(value: string) returns (out: seq<string>)
    ensures out == Fields(value)
  {
    out := [];
    var word := "";
    for i := 0 to |value|
      invariant out == Closed(value[..i]) && word == Word(value[..i])
    {
      assert value[..i + 1][..i] == value[..i];
      if !Separator(value[i]) {
        word := word + [value[i]];
      } else {
        if word != "" {
          out := out + [word];
        }
        word := "";
      }
    }
    assert value[..|value|] == value;
    if word != "" {
      out := out + [word];
    }
  }
}

/** The service and the path that a list of words stands for; the words are of any type. */
module GwsWords {
  import opened Prelude

  /** The table of services, and of the Gmail resources that live under "users". */
  datatype Api<!W(==)> = Api(services: set<W>, userResources: set<W>, gmail: W, users: W) {
    predicate Fit() {
      gmail in services && users !in services && users !in userResources
    }
  }

  datatype Error<W> = ServiceRequired | TooShort(service: W)

  /** The first word that names a service. */
  function FirstService<W(==)>(words: seq<W>, services: set<W>): Option<W> {
    if words == [] then None
    else if words[0] in services then Some(words[0])
    else FirstService(words[1..], services)
  }

  /** The service: a known one that the service field starts with, else the first known one
      anywhere, else the service field if it is a single word. */
  function Service<W(==)>(field: seq<W>, words: seq<W>, api: Api<W>): Option<W> {
    if |field| > 0 && field[0] in api.services then Some(field[0])
    else if FirstService(words, api.services).Some? then FirstService(words, api.services)
    else if |field| == 1 then Some(field[0])
    else None
  }

  function Without<W(==)>(words: seq<W>, service: W): seq<W>
    decreases |words|
  {
    if words == [] then []
    else
      var n := |words| - 1;
      Without(words[..n], service) + if words[n] == service then [] else [words[n]]
  }

  function WithUsers<W(==)>(service: W, path: seq<W>, api: Api<W>): seq<W> {
    if service == api.gmail && |path| >= 2 && path[0] in api.userResources then [api.users] + path else path
  }

  /** The service followed by the path. */
  function Canonical<W(==)>(field: seq<W>, words: seq<W>, api: Api<W>): (r: Result<seq<W>, Error<W>>)
    ensures r.Ok? ==> |r.value| >= 3
  {
    match Service(field, words, api)
    case None => Err(ServiceRequired)
    case Some(service) =>
      var path := WithUsers(service, Without(words, service), api);
      if |path| < 2 then Err(TooShort(service)) else Ok([service] + path)
  }

  lemma {:induction false} FirstServiceMeaning<W>(words: seq<W>, services: set<W>)
    ensures FirstService(words, services).None? <==> forall w | w in words :: w !in services
    ensures FirstService(words, services).Some? ==>
              FirstService(words, services).value in words && FirstService(words, services).value in services
  {
    if words != [] {
      FirstServiceMeaning(words[1..], services);
    }
  }

  lemma {:induction false} WithoutMeaning<W>(words: seq<W>, service: W)
    ensures service !in Without(words, service)
    ensures forall w | w in Without(words, service) :: w in words
    ensures service !in words ==> Without(words, service) == words
    decreases |words|
  {
    if words != [] {
      WithoutMeaning(words[..|words| - 1], service);
      assert words == words[..|words| - 1] + [words[|words| - 1]];
    }
  }

  lemma {:induction false} WithoutHead<W>(w: W, words: seq<W>, service: W)
    ensures Without([w] + words, service) == (if w == service then [] else [w]) + Without(words, service)
    decreases |words|
  {
    if words == [] {
      assert [w] + words == [w] && [w][..0] == [];
    } else {
      var n := |words| - 1;
      assert ([w] + words)[..n + 1] == [w] + words[..n];
      WithoutHead(w, words[..n], service);
    }
  }

  /** What an accepted request resolves to. */
  lemma Accepted<W>(field: seq<W>, words: seq<W>, api: Api<W>) returns (service: W, path: seq<W>)
    requires api.Fit() && field <= words && Canonical(field, words, api).Ok?
    ensures Service(field, words, api) == Some(service) && path == WithUsers(service, Without(words, service), api)
    ensures |path| >= 2 && Canonical(field, words, api).value == [service] + path
    ensures service in words && service !in path && forall w | w in path :: w in words || w == api.users
    ensures service !in api.services ==> forall w | w in path :: w !in api.services
    ensures WithUsers(service, path, api) == path
  {
    service := Service(field, words, api).value;
    path := WithUsers(service, Without(words, service), api);
    WithoutMeaning(words, service);
    FirstServiceMeaning(words, api.services);
  }

  lemma OwnWords<W>(service: W, path: seq<W>)
    requires service !in path
    ensures Without([service] + path, service) == path
  {
    WithoutHead(service, path, service);
    WithoutMeaning(path, service);
  }

  lemma OwnService<W>(service: W, path: seq<W>, api: Api<W>)
    requires service !in api.services ==> forall w | w in path :: w !in api.services
    ensures Service([service], [service] + path, api) == Some(service)
    ensures Service([], [service] + path, api) == if service in api.services then Some(service) else None
  {
    var words := [service] + path;
    FirstServiceMeaning(words, api.services);
    assert words[0] == service;
  }

  /** The canonical words stand for themselves; without a service field they do exactly when the
      service is a known one. */
  lemma CanonicalAgain<W>(field: seq<W>, words: seq<W>, api: Api<W>)
    requires api.Fit() && field <= words && Canonical(field, words, api).Ok?
    ensures var c := Canonical(field, words, api);
      && Canonical([c.value[0]], c.value, api) == c
      && Canonical([], c.value, api) == if c.value[0] in api.services then c else Err(ServiceRequired)
  {
    var service, path := Accepted(field, words, api);
    OwnWords(service, path);
    OwnService(service, path, api);
  }

  /** The canonical words are the service and then the words given, in order, with only the
      service's own occurrences dropped, and "users" put in exactly when the service is Gmail and a
      user resource comes first. */
  lemma CanonicalKeeps<W>(field: seq<W>, words: seq<W>, api: Api<W>)
    requires api.Fit() && field <= words && Canonical(field, words, api).Ok?
    ensures var c := Canonical(field, words, api).value;
      var rest := Without(words, c[0]);
      && |rest| >= 2
      && c == if c[0] == api.gmail && rest[0] in api.userResources then [c[0], api.users] + rest else [c[0]] + rest
  {
    var service, path := Accepted(field, words, api);
    var rest := Without(words, service);
    assert [service] + ([api.users] + rest) == [service, api.users] + rest;
  }

  /** The service: a known word that the service field starts with; else the first known word of
      all; else the service field, if that is one word. */
  lemma ServiceChoice<W>(field: seq<W>, words: seq<W>, api: Api<W>)
    ensures field != [] && field[0] in api.services ==> Service(field, words, api) == Some(field[0])
    ensures (field == [] || field[0] !in api.services) ==>
      forall i | 0 <= i < |words| && words[i] in api.services && (forall j | 0 <= j < i :: words[j] !in api.services) ::
        Service(field, words, api) == Some(words[i])
    ensures (field == [] || field[0] !in api.services) && (forall w | w in words :: w !in api.services) ==>
      Service(field, words, api) == if |field| == 1 then Some(field[0]) else None
  {
    FirstServiceMeaning(words, api.services);
    forall i | 0 <= i < |words| && words[i] in api.services && (forall j | 0 <= j < i :: words[j] !in api.services)
      ensures FirstService(words, api.services) == Some(words[i])
    {
      FirstServiceAt(words, api.services, i);
    }
  }

  lemma {:induction false} FirstServiceAt<W>(words: seq<W>, services: set<W>, i: nat)
    requires i < |words| && words[i] in services && forall j | 0 <= j < i :: words[j] !in services
    ensures FirstService(words, services) == Some(words[i])
  {
    if i > 0 {
      FirstServiceAt(words[1..], services, i - 1);
    }
  }

  function Last<W>(words: seq<W>): W
    requires words != []
  {
    words[|words| - 1]
  }

  /** The last word stays last unless it is the service. */
  lemma CanonicalLast<W>(field: seq<W>, words: seq<W>, api: Api<W>)
    requires api.Fit() && field <= words && Canonical(field, words, api).Ok?
    ensures words != []
    ensures var c := Canonical(field, words, api).value; Last(c) == Last(words) <==> Last(words) != c[0]
  {
    var service, path := Accepted(field, words, api);
    assert ([service] + path)[|path|] == path[|path| - 1] && path[|path| - 1] in path;
    var rest := Without(words, service);
    assert path[|path| - 1] == rest[|rest| - 1];
  }

  lemma CanonicalRefuses<W>(field: seq<W>, words: seq<W>, api: Api<W>)
    requires field <= words
    ensures Canonical(field, words, api) == Err(ServiceRequired) <==>
      |field| != 1 && forall w | w in words :: w !in api.services
    ensures Canonical(field, words, api).Err? && Canonical(field, words, api).error.TooShort? <==>
      exists s :: Service(field, words, api) == Some(s) && |Without(words, s)| < 2
  {
    FirstServiceMeaning(words, api.services);
    if |field| > 0 {
      assert field[0] == words[0];
    }
  }

  lemma CanonicalOfFour<W>(s: W, a: W, b: W, api: Api<W>)
    requires s in api.services && s != api.gmail && a != s && b != s
    ensures Canonical([s], [s, a, b, s], api) == Ok([s, a, b])
  {
    var none: seq<W> := [];
    assert [s, a, b, s] == [s] + ([a] + ([b] + ([s] + none)));
    WithoutHead(s, [a] + ([b] + ([s] + none)), s);
    WithoutHead(a, [b] + ([s] + none), s);
    WithoutHead(b, [s] + none, s);
    WithoutHead(s, none, s);
    assert Without([s, a, b, s], s) == [a, b];
    assert [s] + [a, b] == [s, a, b];
  }

  method KnownService<W(==)>(words: seq<W>, services: set<W>) returns (found: Option<W>)
    ensures found == FirstService(words, services)
  {
    for i := 0 to |words|
      invariant FirstService(words, services) == FirstService(words[i..], services)
    {
      if words[i] in services {
        return Some(words[i]);
      }
      assert words[i..][1..] == words[i + 1..];
    }
    found := None;
  }

  method DropService<W(==)>(words: seq<W>, service: W) returns (path: seq<W>)
    ensures path == Without(words, service)
  {
    path := [];
    for i := 0 to |words|
      invariant path == Without(words[..i], service)
    {
      assert words[..i + 1][..i] == words[..i];
      if words[i] != service {
        path := path + [words[i]];
      }
    }
    assert words[..|words|] == words;
  }

  /** The service and the path: the middle of normalizeGWSRequest. */
  method Resolve<W(==)>(field: seq<W>, words: seq<W>, api: Api<W>) returns (r: Result<seq<W>, Error<W>>)
    ensures r == Canonical(field, words, api)
  {
    var service: Option<W> := None;
    if |field| > 0 && field[0] in api.services {
      service := Some(field[0]);
    } else {
      service := KnownService(words, api.services);
    }
    if service.None? {
      if |field| != 1 {
        return Err(ServiceRequired);
      }
      service := Some(field[0]);
    }
    var path := DropService(words, service.value);
    if service.value == api.gmail && |path| >= 2 && path[0] in api.userResources {
      path := [api.users] + path;
    }
    if |path| < 2 {
      return Err(TooShort(service.value));
    }
    r := Ok([service.value] + path);
  }
}

/** Google Workspace requests and their normal form (cmd/toolmux/gws_normalize.go). */
module Gws {
  import opened Prelude
  import opened GwsPath
  import opened GwsWords

  datatype Shape = Shape(service: string, resource: string, subResource: string, subResources: seq<string>,
    verb: string)

  function Tokens(r: Shape): seq<string> {
    Fields(r.service) + Fields(r.resource) + Fields(r.subResource) + FieldsOfAll(r.subResources) + Fields(r.verb)
  }

  function Build(words: seq<string>): Shape
    requires |words| >= 3
  {
    var last := |words| - 1;
    var middle := words[2..last];
    Shape(words[0], words[1],
          if middle == [] then "" else middle[0],
          if middle == [] then [] else middle[1..],
          words[last])
  }

  function Words(r: Shape, api: Api<string>): Result<seq<string>, Error<string>> {
    Canonical(Fields(r.service), Tokens(r), api)
  }

  function Normalized(r: Shape, api: Api<string>): Result<Shape, Error<string>> {
    match Words(r, api)
    case Err(e) => Err(e)
    case Ok(words) => Ok(Build(words))
  }

  /** The words given to the command line, in order. */
  function Flatten(r: Shape): seq<string> {
    [r.service] + [r.resource] + NonEmpty(r.subResource) + r.subResources + [r.verb]
  }

  lemma BothTokens(a: seq<string>, b: seq<string>)
    requires AllTokens(a) && AllTokens(b)
    ensures AllTokens(a + b)
  {
  }

  lemma TokensAreTokens(r: Shape)
    ensures AllTokens(Tokens(r)) && Fields(r.service) <= Tokens(r)
  {
    var a, b, c, d, e := Fields(r.service), Fields(r.resource), Fields(r.subResource), FieldsOfAll(r.subResources),
      Fields(r.verb);
    FieldsAreTokens(r.service);
    FieldsAreTokens(r.resource);
    FieldsAreTokens(r.subResource);
    AllFieldsAreTokens(r.subResources);
    FieldsAreTokens(r.verb);
    BothTokens(a, b);
    BothTokens(a + b, c);
    BothTokens(a + b + c, d);
    BothTokens(a + b + c + d, e);
    FirstIsPrefix(a, b, c, d, e);
  }

  lemma FirstIsPrefix<W>(a: seq<W>, b: seq<W>, c: seq<W>, d: seq<W>, e: seq<W>)
    ensures a <= a + b + c + d + e
  {
  }

  /** The words of a normal form are the words it was built from. */
  lemma FlattenBuild(words: seq<string>)
    requires |words| >= 3 && AllTokens(words)
    ensures Flatten(Build(words)) == words
  {
    var last := |words| - 1;
    var middle := words[2..last];
    assert words == [words[0]] + [words[1]] + middle + [words[last]];
    if middle != [] {
      assert words[2] == middle[0] && Token(words[2]);
      assert middle == [middle[0]] + middle[1..];
    }
  }

  lemma TokensOfShape(t: Shape)
    requires Token(t.service) && Token(t.resource) && (t.subResource == "" || Token(t.subResource))
    requires AllTokens(t.subResources) && Token(t.verb)
    ensures Fields(t.service) == [t.service] && Tokens(t) == Flatten(t)
  {
    FieldsOfToken(t.service);
    FieldsOfToken(t.resource);
    FieldsOfToken(t.subResource);
    FieldsOfTokens(t.subResources);
    FieldsOfToken(t.verb);
  }

  /** Splitting a normal form's fields again gives its words back. */
  lemma TokensOfBuild(words: seq<string>)
    requires |words| >= 3 && AllTokens(words)
    ensures Fields(Build(words).service) == [words[0]] && Tokens(Build(words)) == words
  {
    var middle := words[2..|words| - 1];
    assert middle != [] ==> middle[0] == words[2] && forall i | 0 <= i < |middle[1..]| ::
      middle[1..][i] == words[i + 3];
    TokensOfShape(Build(words));
    FlattenBuild(words);
  }

  /** Every word of an accepted request is a token. */
  lemma WordsAreTokens(r: Shape, api: Api<string>)
    requires api.Fit() && Token(api.users) && Words(r, api).Ok?
    ensures AllTokens(Words(r, api).value) && Flatten(Normalized(r, api).value) == Words(r, api).value
  {
    var words := Words(r, api).value;
    TokensAreTokens(r);
    var service, path := Accepted(Fields(r.service), Tokens(r), api);
    forall i | 0 <= i < |words| ensures Token(words[i]) {
      assert i > 0 ==> words[i] in path;
    }
    FlattenBuild(words);
  }

  /** The words of the result are the service and then the tokens of the request, in order, with
      only the service's own occurrences dropped, and "users" put in exactly when the service is
      Gmail and a user resource comes first. */
  lemma WordsKept(r: Shape, api: Api<string>)
    requires api.Fit() && Token(api.users) && Normalized(r, api).Ok?
    ensures var t := Normalized(r, api).value;
      var rest := Without(Tokens(r), t.service);
      && |rest| >= 2
      && Flatten(t) ==
         if t.service == api.gmail && rest[0] in api.userResources then [t.service, api.users] + rest
           else [t.service] + rest
  {
    WordsAreTokens(r, api);
    CanonicalKeeps(Fields(r.service), Tokens(r), api);
  }

  /** Normalizing again changes nothing. */
  lemma Idempotent(r: Shape, api: Api<string>)
    requires api.Fit() && Token(api.users) && Normalized(r, api).Ok?
    ensures Normalized(Normalized(r, api).value, api) == Normalized(r, api)
  {
    WordsAreTokens(r, api);
    TokensOfBuild(Words(r, api).value);
    CanonicalAgain(Fields(r.service), Tokens(r), api);
  }

  /** How the tokens are spread over the fields does not matter: two accepted requests have the
      same normal form exactly when they resolve to the same service and their remaining tokens
      agree once the leading "users" is supplied. */
  lemma SameExactly(a: Shape, b: Shape, api: Api<string>)
    requires api.Fit() && Token(api.users)
    ensures Normalized(a, api).Ok? && Normalized(b, api).Ok? ==>
      (Normalized(a, api) == Normalized(b, api) <==>
         var s, t := Normalized(a, api).value.service, Normalized(b, api).value.service;
         s == t && WithUsers(s, Without(Tokens(a), s), api) == WithUsers(t, Without(Tokens(b), t), api))
  {
    if Normalized(a, api).Ok? && Normalized(b, api).Ok? {
      WordsAreTokens(a, api);
      WordsAreTokens(b, api);
      var s, p := Accepted(Fields(a.service), Tokens(a), api);
      var t, q := Accepted(Fields(b.service), Tokens(b), api);
      assert ([s] + p)[1..] == p && ([t] + q)[1..] == q;
    }
  }

  lemma OnlyVerb(verb: string)
    ensures Fields("") == [] && Tokens(Shape("", "", "", [], verb)) == Fields(verb)
  {
    FieldsOfToken("");
    AfterNothing(Fields(verb));
  }

  lemma AfterNothing<W>(words: seq<W>)
    ensures [] + [] + [] + [] + words == words
  {
  }

  /** The whole request may be written in the method field alone, with any separator: that gives
      the same normal form exactly when the service is a known one, and is refused otherwise. */
  lemma OneFieldSpelling(r: Shape, sep: char, api: Api<string>)
    requires api.Fit() && Token(api.users) && Separator(sep) && Normalized(r, api).Ok?
    ensures var t := Normalized(r, api).value;
      Normalized(Shape("", "", "", [], Join(Flatten(t), sep)), api)
      == if t.service in api.services then Ok(t) else Err(ServiceRequired)
  {
    WordsAreTokens(r, api);
    var words := Words(r, api).value;
    FieldsOfJoin(words, sep);
    OnlyVerb(Join(words, sep));
    CanonicalAgain(Fields(r.service), Tokens(r), api);
  }

  /** The last path element is the method, as the documentation says, unless it spells the service
      itself: then it is dropped like any other repetition of the service. */
  lemma MethodExactly(r: Shape, api: Api<string>)
    requires api.Fit() && Normalized(r, api).Ok?
    ensures Tokens(r) != []
    ensures Normalized(r, api).value.verb == Last(Tokens(r)) <==>
      Service(Fields(r.service), Tokens(r), api) != Some(Last(Tokens(r)))
  {
    TokensAreTokens(r);
    CanonicalLast(Fields(r.service), Tokens(r), api);
    EndsOfBuild(Words(r, api).value);
    var service, path := Accepted(Fields(r.service), Tokens(r), api);
  }

  lemma EndsOfBuild(words: seq<string>)
    requires |words| >= 3
    ensures Build(words).service == words[0] && Build(words).verb == Last(words)
  {
  }

  /** So asking a known service for a method of its own name asks for something else: the word
      before becomes the method. */
  lemma MethodReplaced(service: string, a: string, b: string, api: Api<string>)
    requires api.Fit() && Token(service) && Token(a) && Token(b)
    requires service in api.services && service != api.gmail && a != service && b != service
    ensures Normalized(Shape(service, a, b, [], service), api) == Ok(Shape(service, a, "", [], b))
  {
    FieldsOfToken(service);
    FieldsOfToken(a);
    FieldsOfToken(b);
    assert Tokens(Shape(service, a, b, [], service)) == [service, a, b, service];
    CanonicalOfFour(service, a, b, api);
  }

  /** A request is refused exactly when it names no service or fewer than two further words. */
  lemma RefusedExactly(r: Shape, api: Api<string>)
    ensures Normalized(r, api) == Err(ServiceRequired) <==>
      |Fields(r.service)| != 1 && forall t | t in Tokens(r) :: t !in api.services
    ensures Normalized(r, api).Err? && Normalized(r, api).error.TooShort? <==>
      exists s :: Service(Fields(r.service), Tokens(r), api) == Some(s) && |Without(Tokens(r), s)| < 2
  {
    TokensAreTokens(r);
    CanonicalRefuses(Fields(r.service), Tokens(r), api);
  }

  class Request {
    var service: string
    var resource: string
    var subResource: string
    var subResources: seq<string>
    var verb: string

    function Value(): Shape
      reads this
    {
      Shape(service, resource, subResource, subResources, verb)
    }

    /** normalizeGWSRequest: the fields then hold the normal form, or are as they were. */
    method Normalize(api: Api<string>) returns (r: Result<(), Error<string>>)
      modifies this
      ensures r.Ok? <==> Normalized(old(Value()), api).Ok?
      ensures r.Ok? ==> Value() == Normalized(old(Value()), api).value
      ensures r.Err? ==> Value() == old(Value()) && r.error == Normalized(old(Value()), api).error
    {
      var tokens := CollectTokens();
      var parts := SplitPath(service);
      var words := Resolve(parts, tokens, api);
      assert words == Words(Value(), api);
      if words.Err? {
        return Err(words.error);
      }
      Assign(words.value);
      r := Ok(());
    }

    method Assign(words: seq<string>)
      requires |words| >= 3
      modifies this
      ensures Value() == Build(words)
    {
      var last := |words| - 1;
      service, resource, verb := words[0], words[1], words[last];
      var middle := words[2..last];
      subResource, subResources := "", [];
      if |middle| > 0 {
        subResource, subResources := middle[0], middle[1..];
      }
    }

    method CollectTokens() returns (tokens: seq<string>)
      ensures tokens == Tokens(Value())
    {
      tokens := SplitPath(service);
      var more := SplitPath(resource);
      tokens := tokens + more;
      more := SplitPath(subResource);
      tokens := tokens + more;
      ghost var front := tokens;
      for i := 0 to |subResources|
        invariant tokens == front + FieldsOfAll(subResources[..i])
      {
        more := SplitPath(subResources[i]);
        OneMoreValue(subResources, i);
        Regroup(front, FieldsOfAll(subResources[..i]), more);
        tokens := tokens + more;
      }
      assert subResources[..|subResources|] == subResources;
      more := SplitPath(verb);
      tokens := tokens + more;
    }
  }

  lemma OneMoreValue(values: seq<string>, i: nat)
    requires i < |values|
    ensures FieldsOfAll(values[..i + 1]) == FieldsOfAll(values[..i]) + Fields(values[i])
  {
    assert values[..i + 1][..i] == values[..i];
  }

  lemma Regroup<W>(a: seq<W>, b: seq<W>, c: seq<W>)
    ensures a + b + c == a + (b + c)
  {
  }
}

/** The tables the program is built with. */
module GwsTables {
  import GwsPath
  import GwsWords

  const GOOGLE := GwsWords.Api(
    {
      "gmail", "drive", "calendar", "sheets", "docs", "slides", "admin", "people", "tasks", "forms",
      "chat", "script", "keep", "meet", "classroom", "groupssettings", "reports", "licensing", "cloudidentity"
    },
    {"messages", "threads", "drafts", "labels", "settings", "history"},
    "gmail",
    "users"
  )

  /** They meet what the normal form needs of a table. */
  lemma GoogleFits()
    ensures GOOGLE.Fit() && GwsPath.Token(GOOGLE.users) && "" !in GOOGLE.services
  {
    assert forall s | s in GOOGLE.services :: s[0] != "users"[0];
    assert forall s | s in GOOGLE.userResources :: s[0] != "users"[0];
  }
}
