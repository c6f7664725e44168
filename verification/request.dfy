/** Request dispatch (rs/request.py): a staged filter of the resource table
    by path, method, content type and accepted media, a ranking of what is
    left, and the extraction of the winner's path, query and form
    parameters. */
module Requests {
  import opened Base
  import opened PyStr
  import opened Lists
  import opened Objects
  import opened Annotations
  import opened Messages
  import opened Sorting
  import opened PathPatterns
  import opened Resources

  /** `re.match(p.replace('*', '.*'), s)` for a media pattern `p`: `*`
      stands for any run of characters other than a newline, every other
      character for itself, and the match is anchored at the start of `s`
      only. */
  predicate WildMatch(p: string, s: string)
    decreases |p| + |s|
  {
    if p == [] then true
    else if p[0] == '*' then WildMatch(p[1..], s) || (s != [] && s[0] != '\n' && WildMatch(p, s[1..]))
    else s != [] && s[0] == p[0] && WildMatch(p[1..], s[1..])
  }

  /** Without `*`, a media pattern matches exactly the values it is a
      prefix of. */
  lemma {:induction false} WildLiteral(p: string, s: string)
    requires '*' !in p
    ensures WildMatch(p, s) <==> |p| <= |s| && s[..|p|] == p
    decreases |p|
  {
    if p != [] && s != [] {
      assert p[1..] == p[1..] && '*' !in p[1..];
      WildLiteral(p[1..], s[1..]);
      if |p| <= |s| {
        assert s[..|p|] == [s[0]] + s[1..][..|p| - 1];
        assert p == [p[0]] + p[1..];
      }
    }
  }

  /** The match is not anchored at the end: what follows a matched value
      does not matter. */
  lemma {:induction false} WildPrefix(p: string, s: string, t: string)
    requires WildMatch(p, s)
    ensures WildMatch(p, s + t)
    decreases |p| + |s|
  {
    if p != [] {
      if p[0] == '*' {
        if WildMatch(p[1..], s) {
          WildPrefix(p[1..], s, t);
        } else {
          WildPrefix(p, s[1..], t);
          assert (s + t)[1..] == s[1..] + t;
        }
      } else {
        WildPrefix(p[1..], s[1..], t);
        assert (s + t)[1..] == s[1..] + t;
      }
    }
  }

  /** A `*` absorbs any run of characters without a newline. */
  lemma {:induction false} WildSkip(q: string, s: string, t: string)
    requires '\n' !in s && WildMatch(q, t)
    ensures WildMatch("*" + q, s + t)
    decreases |s|
  {
    var p := "*" + q;
    assert p[1..] == q;
    if s != [] {
      WildSkip(q, s[1..], t);
      assert (s + t)[0] == s[0] != '\n';
      assert (s + t)[1..] == s[1..] + t;
    } else {
      assert s + t == t;
    }
  }

  /** What the dispatcher reads of a request: its method, its path, the
      decoded `(key, value)` pairs of its query and of its body (as
      `parse_qs` yields them), and its headers. */
  datatype Request = Request(
    httpMethod: string,
    path: string,
    query: seq<(string, string)>,
    body: seq<(string, string)>,
    headers: map<string, string>)

  /** The parameters handed to the handler: the path captures by name, and
      the query and form parameters. */
  datatype Params = Params(
    path: map<string, string>,
    query: map<string, PyValue>,
    form: map<string, PyValue>)

  // ---- query and form parameters -------------------------------------

  /** The values given for key `k`, in order. */
  function ValuesOf(pairs: seq<(string, string)>, k: string): seq<string>
    decreases |pairs|
  {
    if pairs == [] then []
    else
      var last := pairs[|pairs| - 1];
      ValuesOf(pairs[..|pairs| - 1], k) + (if last.0 == k then [last.1] else [])
  }

  /** `v if len(v) > 1 else v[0]` */
  function Unwrap(vs: seq<string>): PyValue {
    if |vs| == 1 then PyStr(vs[0]) else PyList(vs)
  }

  /** `extract_query_params`: every key of the pairs, with its only value
      or the list of its values. */
  function GroupQuery(pairs: seq<(string, string)>): map<string, PyValue> {
    map k | k in (set i | 0 <= i < |pairs| :: pairs[i].0) :: Unwrap(ValuesOf(pairs, k))
  }

  /** The values of a key are exactly those paired with it, and there is at
      least one for each key that occurs. */
  lemma {:induction false} ValuesOfMembers(pairs: seq<(string, string)>, k: string, v: string)
    ensures v in ValuesOf(pairs, k) <==> (k, v) in pairs
    ensures ValuesOf(pairs, k) == [] <==> forall i :: 0 <= i < |pairs| ==> pairs[i].0 != k
    decreases |pairs|
  {
    if pairs != [] {
      var init := pairs[..|pairs| - 1];
      ValuesOfMembers(init, k, v);
      assert pairs == init + [pairs[|pairs| - 1]];
    }
  }

  /** A key given once maps to its value. */
  lemma {:induction false} ValuesOfSingle(pairs: seq<(string, string)>, i: nat)
    requires i < |pairs|
    requires forall j :: 0 <= j < |pairs| && j != i ==> pairs[j].0 != pairs[i].0
    ensures ValuesOf(pairs, pairs[i].0) == [pairs[i].1]
    decreases |pairs|
  {
    var init := pairs[..|pairs| - 1];
    var k := pairs[i].0;
    if i == |pairs| - 1 {
      ValuesOfMembers(init, k, pairs[i].1);
    } else {
      ValuesOfSingle(init, i);
    }
  }

  /** A key given twice or more has at least two values. */
  lemma {:induction false} ValuesOfRepeated(pairs: seq<(string, string)>, i: nat, j: nat)
    requires i < j < |pairs| && pairs[i].0 == pairs[j].0
    ensures |ValuesOf(pairs, pairs[i].0)| >= 2
    decreases |pairs|
  {
    var init := pairs[..|pairs| - 1];
    var k := pairs[i].0;
    if j == |pairs| - 1 {
      ValuesOfMembers(init, k, pairs[i].1);
      assert init[i] == pairs[i];
    } else {
      ValuesOfRepeated(init, i, j);
    }
  }

  /** The query map has the keys that occur; a key given once maps to its
      value, a repeated key to the list of its values in order. */
  lemma GroupQueryLookup(pairs: seq<(string, string)>, i: nat)
    requires i < |pairs|
    ensures pairs[i].0 in GroupQuery(pairs)
    ensures (forall j :: 0 <= j < |pairs| && j != i ==> pairs[j].0 != pairs[i].0)
              ==> GroupQuery(pairs)[pairs[i].0] == PyStr(pairs[i].1)
    ensures (exists j :: 0 <= j < |pairs| && j != i && pairs[j].0 == pairs[i].0)
              ==> GroupQuery(pairs)[pairs[i].0] == PyList(ValuesOf(pairs, pairs[i].0))
  {
    var k := pairs[i].0;
    if forall j :: 0 <= j < |pairs| && j != i ==> pairs[j].0 != k {
      ValuesOfSingle(pairs, i);
    } else {
      var j :| 0 <= j < |pairs| && j != i && pairs[j].0 == k;
      if i < j {
        ValuesOfRepeated(pairs, i, j);
      } else {
        ValuesOfRepeated(pairs, j, i);
      }
    }
  }

  /** Only keys that occur are in the query map, so no query gives no
      parameters. */
  lemma GroupQueryKeys(pairs: seq<(string, string)>, k: string)
    ensures k in GroupQuery(pairs) <==> exists i :: 0 <= i < |pairs| && pairs[i].0 == k
  {
  }

  const FormMedia := "application/x-www-form-urlencoded"

  /** `extract_form_params`: the body's parameters, for a form POST only. */
  function FormParams(request: Request): map<string, PyValue> {
    if request.httpMethod == "POST" && Lower(Attr(request.headers, "content-type").GetOr("")) == FormMedia
    then GroupQuery(request.body)
    else map[]
  }

  /** Form parameters are read from the body exactly for a POST whose content
      type is the form media type in any letter case. */
  lemma FormGate(request: Request, ct: string)
    requires Attr(request.headers, "content-type") == Some(ct)
    ensures request.httpMethod == "POST" && Lower(ct) == FormMedia ==> FormParams(request) == GroupQuery(request.body)
    ensures request.httpMethod != "POST" ==> FormParams(request) == map[]
    ensures Lower(ct) != FormMedia ==> FormParams(request) == map[]
  {
  }

  /** Without a content type there are no form parameters. */
  lemma FormNeedsContentType(request: Request)
    requires "content-type" !in request.headers
    ensures FormParams(request) == map[]
  {
    assert Lower("") == "";
  }

  // ---- path stage ----------------------------------------------------

  /** `res.pattern.match(path.strip('/'))` */
  function MatchOf(res: Resource, path: string): Option<seq<string>> {
    Greedy(res.pattern, StripChars(path, Slash))
  }

  /** The resources whose pattern matches the path, in table order. */
  function PathMatches(table: seq<Resource>, path: string): seq<Resource>
    decreases |table|
  {
    if table == [] then []
    else
      var last := table[|table| - 1];
      PathMatches(table[..|table| - 1], path) + (if MatchOf(last, path).Some? then [last] else [])
  }

  /** The match recorded for each resource that matches. */
  function MatchMap(table: seq<Resource>, path: string): map<Resource, seq<string>> {
    map res | res in table && MatchOf(res, path).Some? :: MatchOf(res, path).value
  }

  /** One more resource adds its match, if it has one. */
  lemma MatchMapSnoc(table: seq<Resource>, x: Resource, path: string)
    ensures MatchMap(table + [x], path)
            == if MatchOf(x, path).Some? then MatchMap(table, path)[x := MatchOf(x, path).value] else MatchMap(table, path)
  {
    assert forall res :: res in table + [x] <==> res in table || res == x;
  }

  /** The step of the loop of `resolve_path` over `table[i]`. */
  lemma ResolvePathStep(table: seq<Resource>, i: nat, path: string)
    requires i < |table|
    ensures PathMatches(table[..i + 1], path)
            == PathMatches(table[..i], path) + (if MatchOf(table[i], path).Some? then [table[i]] else [])
    ensures MatchMap(table[..i + 1], path)
            == if MatchOf(table[i], path).Some? then MatchMap(table[..i], path)[table[i] := MatchOf(table[i], path).value]
               else MatchMap(table[..i], path)
  {
    var before := table[..i];
    assert table[..i + 1] == before + [table[i]];
    assert (before + [table[i]])[..|before|] == before;
    MatchMapSnoc(before, table[i], path);
  }

  /** `resolve_path(path)` */
  function ResolvePathOf(table: seq<Resource>, path: string): (r: Result<seq<Resource>>)
    ensures r.Ok? ==> r.value != []
  {
    var kept := PathMatches(table, path);
    if kept == [] then Err(Status(NOT_FOUND)) else Ok(kept)
  }

  /** The path stage keeps exactly the resources whose pattern matches. */
  lemma {:induction false} PathMatchesMembers(table: seq<Resource>, path: string, x: Resource)
    ensures x in PathMatches(table, path) <==> x in table && MatchOf(x, path).Some?
    decreases |table|
  {
    if table != [] {
      var init := table[..|table| - 1];
      PathMatchesMembers(init, path, x);
      assert table == init + [table[|table| - 1]];
    }
  }

  /** A resource matches when its pattern, with each placeholder replaced
      by a non-empty string, spells the path without its outer slashes;
      the recorded captures are such strings. */
  lemma PathMatchMeaning(res: Resource, path: string)
    ensures MatchOf(res, path).Some? <==> exists caps :: Fills(res.pattern, StripChars(path, Slash), caps)
    ensures MatchOf(res, path).Some? ==> Fills(res.pattern, StripChars(path, Slash), MatchOf(res, path).value)
  {
    var s := StripChars(path, Slash);
    if MatchOf(res, path).Some? {
      GreedySound(res.pattern, s);
    }
    forall caps | Fills(res.pattern, s, caps) ensures Greedy(res.pattern, s).Some? {
      GreedyComplete(res.pattern, s, caps);
    }
  }

  /** The path stage fails, with NOT_FOUND, exactly when nothing matches. */
  lemma ResolvePathErrors(table: seq<Resource>, path: string)
    ensures ResolvePathOf(table, path).Err? <==> forall x :: x in table ==> MatchOf(x, path).None?
    ensures ResolvePathOf(table, path).Err? ==> ResolvePathOf(table, path).error == Status(NOT_FOUND)
  {
    if ResolvePathOf(table, path).Ok? {
      var x := PathMatches(table, path)[0];
      PathMatchesMembers(table, path, x);
    } else {
      forall x | x in table ensures MatchOf(x, path).None? {
        PathMatchesMembers(table, path, x);
      }
    }
  }

  // ---- method stage --------------------------------------------------

  /** `[res for res in resources if res.method == method]` */
  function MethodMatches(cands: seq<Resource>, httpMethod: string): seq<Resource>
    decreases |cands|
  {
    if cands == [] then []
    else
      var last := cands[|cands| - 1];
      MethodMatches(cands[..|cands| - 1], httpMethod) + (if last.httpMethod == Some(httpMethod) then [last] else [])
  }

  function MethodsOf(cands: seq<Resource>): (r: seq<Option<string>>)
    ensures |r| == |cands|
    ensures forall i :: 0 <= i < |cands| ==> r[i] == cands[i].httpMethod
  {
    seq(|cands|, i requires 0 <= i < |cands| => cands[i].httpMethod)
  }

  /** `', '.join(set(methods))`: a method that is None makes `join` raise
      TypeError. */
  function AllowHeader(methods: seq<Option<string>>): Result<string> {
    var ms := Distinct(methods);
    if exists i :: 0 <= i < |ms| && ms[i].None? then Err(TypeError)
    else Ok(Join(seq(|ms|, i requires 0 <= i < |ms| => ms[i].GetOr("")), ", "))
  }

  /** `resolve_method(method)` */
  function ResolveMethod(cands: seq<Resource>, httpMethod: string): (r: Result<seq<Resource>>)
    ensures r.Ok? ==> r.value != []
  {
    var kept := MethodMatches(cands, httpMethod);
    if kept != [] then Ok(kept)
    else
      var allow :- AllowHeader(MethodsOf(cands));
      Err(HttpError(METHOD_NOT_ALLOWED, map["allow" := allow]))
  }

  /** The method stage keeps exactly the candidates with the request's
      method. */
  lemma {:induction false} MethodMatchesMembers(cands: seq<Resource>, httpMethod: string, x: Resource)
    ensures x in MethodMatches(cands, httpMethod) <==> x in cands && x.httpMethod == Some(httpMethod)
    decreases |cands|
  {
    if cands != [] {
      var init := cands[..|cands| - 1];
      MethodMatchesMembers(init, httpMethod, x);
      assert cands == init + [cands[|cands| - 1]];
    }
  }

  /** The join fails, with TypeError, exactly when some method is None. */
  lemma AllowHeaderFails(methods: seq<Option<string>>)
    ensures (exists i :: 0 <= i < |methods| && methods[i].None?) <==> AllowHeader(methods).Err?
    ensures AllowHeader(methods).Err? ==> AllowHeader(methods) == Err(TypeError)
  {
    var d := Distinct(methods);
    DistinctSpec(methods);
    if exists i :: 0 <= i < |methods| && methods[i].None? {
      var i :| 0 <= i < |methods| && methods[i].None?;
      assert methods[i] in d;
    }
    if exists i :: 0 <= i < |d| && d[i].None? {
      var i :| 0 <= i < |d| && d[i].None?;
      assert d[i] in methods;
    }
  }

  /** Otherwise the header lists every method once, joined by `, `. */
  lemma AllowHeaderLists(methods: seq<Option<string>>)
    requires forall i :: 0 <= i < |methods| ==> methods[i].Some?
    ensures exists ms: seq<string> ::
              && NoDuplicates(ms)
              && (forall m :: m in ms <==> Some(m) in methods)
              && AllowHeader(methods) == Ok(Join(ms, ", "))
  {
    var d := Distinct(methods);
    DistinctSpec(methods);
    AllowHeaderFails(methods);
    forall i | 0 <= i < |d| ensures d[i].Some? {
      assert d[i] in methods;
    }
    var ms := seq(|d|, i requires 0 <= i < |d| => d[i].GetOr(""));
    forall i, j | 0 <= i < j < |ms| ensures ms[i] != ms[j] {
      assert d[i] != d[j];
    }
    forall m ensures m in ms <==> Some(m) in methods {
      if m in ms {
        var i :| 0 <= i < |ms| && ms[i] == m;
        assert d[i] == Some(m);
      }
      if Some(m) in methods {
        var i :| 0 <= i < |d| && d[i] == Some(m);
        assert ms[i] == m;
      }
    }
  }

  /** When no candidate has the request's method the stage fails with
      METHOD_NOT_ALLOWED and an `allow` header listing every candidate's
      method once, joined by `, `; when a candidate has no method at all the
      join itself fails with TypeError. */
  lemma MethodNotAllowed(cands: seq<Resource>, httpMethod: string)
    requires forall x :: x in cands ==> x.httpMethod != Some(httpMethod)
    ensures (exists x :: x in cands && x.httpMethod.None?) <==> ResolveMethod(cands, httpMethod) == Err(TypeError)
    ensures (forall x :: x in cands ==> x.httpMethod.Some?) ==>
              exists ms: seq<string> ::
                && NoDuplicates(ms)
                && (forall m :: m in ms <==> exists x :: x in cands && x.httpMethod == Some(m))
                && ResolveMethod(cands, httpMethod) == Err(HttpError(METHOD_NOT_ALLOWED, map["allow" := Join(ms, ", ")]))
  {
    var methods := MethodsOf(cands);
    if MethodMatches(cands, httpMethod) != [] {
      var y := MethodMatches(cands, httpMethod)[0];
      MethodMatchesMembers(cands, httpMethod, y);
    }
    AllowHeaderFails(methods);
    forall m ensures Some(m) in methods <==> exists x :: x in cands && x.httpMethod == Some(m) {
      if exists x :: x in cands && x.httpMethod == Some(m) {
        var x :| x in cands && x.httpMethod == Some(m);
        var k :| 0 <= k < |cands| && cands[k] == x;
        assert methods[k] == Some(m);
      }
    }
    if exists x :: x in cands && x.httpMethod.None? {
      var x :| x in cands && x.httpMethod.None?;
      var k :| 0 <= k < |cands| && cands[k] == x;
      assert methods[k].None?;
    }
    if forall x :: x in cands ==> x.httpMethod.Some? {
      forall i | 0 <= i < |methods| ensures methods[i].Some? {
        assert cands[i] in cands;
      }
      AllowHeaderLists(methods);
    }
  }

  // ---- media stage ---------------------------------------------------

  /** The `value` of a parsed media type. */
  function MediaValue(parsed: Parsed): string {
    Attr(parsed, "value").GetOr("")
  }

  /** `resolve_consumer(res.consumer)`: a resource without a consumer takes
      any media; otherwise its declared media value, as a pattern, must
      match the start of the request's media value. */
  function ConsumerMatch(res: Resource, media: string): Result<bool> {
    match res.consumer
    case None => Ok(true)
    case Some(decl) =>
      var supported :- ParseMedia(decl.media);
      var requested :- ParseMedia(media);
      Ok(WildMatch(MediaValue(supported), MediaValue(requested)))
  }

  /** The comprehension over the candidates, in order; the first failure to
      parse a media type ends it. */
  function MediaMatches(cands: seq<Resource>, media: string): Result<seq<Resource>>
    decreases |cands|
  {
    if cands == [] then Ok([])
    else
      var ok :- ConsumerMatch(cands[0], media);
      var rest :- MediaMatches(cands[1..], media);
      Ok((if ok then [cands[0]] else []) + rest)
  }

  /** `resolve_media(media)` */
  function ResolveMedia(cands: seq<Resource>, media: Option<string>): (r: Result<seq<Resource>>)
    ensures r.Ok? && cands != [] ==> r.value != []
  {
    if media.None? || media.value == "" then Ok(cands)
    else
      var kept :- MediaMatches(cands, media.value);
      if kept == [] then Err(Status(UNSUPPORTED_MEDIA_TYPE)) else Ok(kept)
  }

  /** The media comprehension keeps exactly the candidates that take the
      request's media, and fails, with ValueError, exactly when a media type
      it has to parse does not parse. */
  lemma {:induction false} MediaMatchesMembers(cands: seq<Resource>, media: string, x: Resource)
    ensures MediaMatches(cands, media).Err? <==> exists y :: y in cands && ConsumerMatch(y, media).Err?
    ensures MediaMatches(cands, media).Err? ==> MediaMatches(cands, media).error == ValueError
    ensures MediaMatches(cands, media).Ok? ==>
              (x in MediaMatches(cands, media).value <==> x in cands && ConsumerMatch(x, media) == Ok(true))
    decreases |cands|
  {
    if cands != [] {
      MediaMatchesMembers(cands[1..], media, x);
      assert forall y :: y in cands <==> y == cands[0] || y in cands[1..];
      match cands[0].consumer {
        case None =>
        case Some(decl) =>
          ParseMediaResult(decl.media);
          ParseMediaResult(media);
      }
    }
  }

  /** With no content type the stage passes every candidate on; otherwise it
      keeps exactly those that take the request's media, fails with
      UNSUPPORTED_MEDIA_TYPE when there are none, and with ValueError when a
      media type does not parse. */
  lemma ResolveMediaMeaning(cands: seq<Resource>, media: Option<string>, x: Resource)
    ensures media.None? || media.value == "" ==> ResolveMedia(cands, media) == Ok(cands)
    ensures ResolveMedia(cands, media).Err? ==>
              ResolveMedia(cands, media).error in {ValueError, Status(UNSUPPORTED_MEDIA_TYPE)}
    ensures media.Some? && media.value != "" && ResolveMedia(cands, media).Ok? ==>
              (x in ResolveMedia(cands, media).value <==> x in cands && ConsumerMatch(x, media.value) == Ok(true))
  {
    if media.Some? && media.value != "" {
      MediaMatchesMembers(cands, media.value, x);
    }
  }

  /** A resource without a consumer takes any media. */
  lemma NoConsumerTakesAll(res: Resource, media: string)
    requires res.consumer.None?
    ensures ConsumerMatch(res, media) == Ok(true)
  {
  }

  // ---- accept stage --------------------------------------------------

  /** The q of the first accepted entry whose value, as a pattern, matches
      `produced`: None when no entry matches, ValueError when that entry's
      q is not a number. */
  function FirstQ(entries: seq<Parsed>, produced: string): Result<Option<int>>
    decreases |entries|
  {
    if entries == [] then Ok(None)
    else if WildMatch(MediaValue(entries[0]), produced) then
      match QOf(entries[0])
      case Some(q) => Ok(Some(q))
      case None => Err(ValueError)
    else FirstQ(entries[1..], produced)
  }

  /** `resolve_producer(res.producer)`, in thousandths: a resource without a
      producer gets 1.0; otherwise the q of the first entry of the sorted
      Accept list that matches its produced media value. */
  function QFor(res: Resource, accept: string): Result<Option<int>> {
    match res.producer
    case None => Ok(Some(1000))
    case Some(decl) =>
      var produced :- ParseMedia(decl.media);
      var entries :- ParseAccept(accept);
      FirstQ(entries, MediaValue(produced))
  }

  /** `if not q: continue` drops a resource with no match or q = 0. */
  predicate Kept(q: Option<int>) {
    q.Some? && q.value != 0
  }

  /** The loop of `resolve_accept` as a comprehension, in order; the first
      failure ends it. */
  function AcceptMatches(cands: seq<Resource>, accept: string): Result<seq<Resource>>
    decreases |cands|
  {
    if cands == [] then Ok([])
    else
      var q :- QFor(cands[0], accept);
      var rest :- AcceptMatches(cands[1..], accept);
      Ok((if Kept(q) then [cands[0]] else []) + rest)
  }

  /** The q recorded for each kept resource. */
  function QMap(cands: seq<Resource>, accept: string): map<Resource, int> {
    map res | res in cands && QKept(res, accept) :: QFor(res, accept).value.value
  }

  /** `res` survives the loop with a q. */
  predicate QKept(res: Resource, accept: string) {
    QFor(res, accept).Ok? && Kept(QFor(res, accept).value)
  }

  /** The q keys `resolve_accept` leaves behind (none without an Accept
      header). */
  function AcceptQs(cands: seq<Resource>, accept: Option<string>): map<Resource, int> {
    if accept.None? || accept.value == "" then map[] else QMap(cands, accept.value)
  }

  /** One more resource adds its q, if it is kept. */
  lemma QMapSnoc(cands: seq<Resource>, x: Resource, accept: string)
    ensures QMap(cands + [x], accept)
            == if QKept(x, accept)
               then QMap(cands, accept)[x := QFor(x, accept).value.value]
               else QMap(cands, accept)
  {
    var m := QMap(cands, accept);
    var m2 := QMap(cands + [x], accept);
    if QKept(x, accept) {
      var e := m[x := QFor(x, accept).value.value];
      forall res
        ensures res in m2 <==> res in e
        ensures res in m2 ==> m2[res] == e[res]
      {
        assert res in cands + [x] <==> res in cands || res == x;
      }
      assert m2 == e;
    } else {
      forall res
        ensures res in m2 <==> res in m
        ensures res in m2 ==> m2[res] == m[res]
      {
        assert res in cands + [x] <==> res in cands || res == x;
      }
      assert m2 == m;
    }
  }

  /** `resolve_accept(accept)` */
  function ResolveAcceptOf(cands: seq<Resource>, accept: Option<string>): (r: Result<seq<Resource>>)
    ensures r.Ok? && cands != [] ==> r.value != []
  {
    if accept.None? || accept.value == "" then Ok(cands)
    else
      var kept :- AcceptMatches(cands, accept.value);
      if kept == [] then Err(Status(NOT_ACCEPTABLE)) else Ok(kept)
  }

  /** The first matching entry decides: its q is the result, and no earlier
      entry matches; with no matching entry the result is None. */
  lemma FirstQMeaning(entries: seq<Parsed>, produced: string)
    ensures FirstQ(entries, produced) == Ok(None) <==>
              forall i :: 0 <= i < |entries| ==> !WildMatch(MediaValue(entries[i]), produced)
    ensures FirstQ(entries, produced).Ok? && FirstQ(entries, produced).value.Some? ==>
              exists i :: 0 <= i < |entries| && WildMatch(MediaValue(entries[i]), produced)
                && QOf(entries[i]) == FirstQ(entries, produced).value
                && forall j :: 0 <= j < i ==> !WildMatch(MediaValue(entries[j]), produced)
  {
    FirstQNone(entries, produced);
    if FirstQ(entries, produced).Ok? && FirstQ(entries, produced).value.Some? {
      var i := FirstQHit(entries, produced);
    }
  }

  /** No entry matches exactly when the result is None. */
  lemma {:induction false} FirstQNone(entries: seq<Parsed>, produced: string)
    ensures FirstQ(entries, produced) == Ok(None) <==>
              forall i :: 0 <= i < |entries| ==> !WildMatch(MediaValue(entries[i]), produced)
    decreases |entries|
  {
    if entries != [] {
      FirstQNone(entries[1..], produced);
      if !WildMatch(MediaValue(entries[0]), produced) {
        forall i | 0 < i < |entries| ensures entries[i] == entries[1..][i - 1] {
        }
      }
    }
  }

  /** A q comes from the first matching entry. */
  lemma {:induction false} FirstQHit(entries: seq<Parsed>, produced: string) returns (i: nat)
    requires FirstQ(entries, produced).Ok? && FirstQ(entries, produced).value.Some?
    ensures i < |entries| && WildMatch(MediaValue(entries[i]), produced)
    ensures QOf(entries[i]) == FirstQ(entries, produced).value
    ensures forall j :: 0 <= j < i ==> !WildMatch(MediaValue(entries[j]), produced)
    decreases |entries|
  {
    if WildMatch(MediaValue(entries[0]), produced) {
      i := 0;
    } else {
      var k := FirstQHit(entries[1..], produced);
      i := k + 1;
      forall j | 0 < j <= i ensures entries[j] == entries[1..][j - 1] {
      }
    }
  }

  /** The accept loop keeps exactly the resources with a non-zero q, and
      fails, with ValueError, exactly when some q cannot be computed. */
  lemma {:induction false} AcceptMatchesMembers(cands: seq<Resource>, accept: string, x: Resource)
    ensures AcceptMatches(cands, accept).Err? <==> exists y :: y in cands && QFor(y, accept).Err?
    ensures AcceptMatches(cands, accept).Ok? ==>
              (x in AcceptMatches(cands, accept).value <==> x in cands && Kept(QFor(x, accept).value))
    decreases |cands|
  {
    if cands != [] {
      AcceptMatchesMembers(cands[1..], accept, x);
      assert forall y :: y in cands <==> y == cands[0] || y in cands[1..];
    }
  }

  /** Every failure of the accept loop is a ValueError. */
  lemma {:induction false} QForErrors(res: Resource, accept: string)
    ensures QFor(res, accept).Err? ==> QFor(res, accept).error == ValueError
  {
    if res.producer.Some? {
      ParseMediaResult(res.producer.value.media);
      ParseAcceptOrder(accept);
      var produced := ParseMedia(res.producer.value.media);
      var entries := ParseAccept(accept);
      if produced.Ok? && entries.Ok? {
        FirstQErrors(entries.value, MediaValue(produced.value));
      }
    }
  }

  lemma {:induction false} FirstQErrors(entries: seq<Parsed>, produced: string)
    ensures FirstQ(entries, produced).Err? ==> FirstQ(entries, produced).error == ValueError
    decreases |entries|
  {
    if entries != [] {
      FirstQErrors(entries[1..], produced);
    }
  }

  /** A resource without a producer is always acceptable, at q = 1.0. */
  lemma NoProducerAcceptsAll(res: Resource, accept: string)
    requires res.producer.None?
    ensures QFor(res, accept) == Ok(Some(1000)) && Kept(QFor(res, accept).value)
  {
  }

  // ---- ranking -------------------------------------------------------

  /** The ranking key `(q_key.get(res, 1), len(groups) or maxsize,
      len(res.path))`: the number of groups of a resource's match is the
      number of placeholders of its pattern. */
  function DispatchRank(q: map<Resource, int>): Resource -> Rank {
    res => Rank(if res in q then q[res] else 1000,
                if CapCount(res.pattern) == 0 then MAXSIZE else CapCount(res.pattern),
                |res.path|)
  }

  /** What the four stages leave: the candidates and their q keys. */
  datatype Ranking = Ranking(candidates: seq<Resource>, q: map<Resource, int>)

  function Stages(table: seq<Resource>, request: Request): (r: Result<Ranking>)
    ensures r.Ok? ==> r.value.candidates != []
  {
    var byPath :- ResolvePathOf(table, request.path);
    var byMethod :- ResolveMethod(byPath, request.httpMethod);
    var byMedia :- ResolveMedia(byMethod, Attr(request.headers, "content-type"));
    var byAccept :- ResolveAcceptOf(byMedia, Attr(request.headers, "accept"));
    Ok(Ranking(byAccept, AcceptQs(byMedia, Attr(request.headers, "accept"))))
  }

  /** `extract_path_params(m)`: the captures of the match by name. */
  function PathParams(res: Resource, path: string): map<string, string> {
    var s := StripChars(path, Slash);
    match Greedy(res.pattern, s)
    case None => map[]
    case Some(caps) =>
      GreedySound(res.pattern, s);
      GroupDict(res.pattern, caps)
  }

  /** `dispatch(resources, request)`: the first of the ranked candidates,
      with its parameters. */
  function DispatchOf(table: seq<Resource>, request: Request): Result<(Resource, Params)> {
    var ranking :- Stages(table, request);
    var winner := SortDesc(ranking.candidates, DispatchRank(ranking.q))[0];
    Ok((winner, Params(PathParams(winner, request.path), GroupQuery(request.query), FormParams(request))))
  }

  /** Every stage only filters its input: a candidate left after the four
      stages is in the table, matches the path and has the request's
      method. */
  lemma StagesFilter(table: seq<Resource>, request: Request, x: Resource)
    requires Stages(table, request).Ok? && x in Stages(table, request).value.candidates
    ensures x in table && MatchOf(x, request.path).Some? && x.httpMethod == Some(request.httpMethod)
  {
    var byPath := ResolvePathOf(table, request.path).value;
    var byMethod := ResolveMethod(byPath, request.httpMethod).value;
    var media := Attr(request.headers, "content-type");
    var byMedia := ResolveMedia(byMethod, media).value;
    var accept := Attr(request.headers, "accept");
    if accept.Some? && accept.value != "" {
      AcceptMatchesMembers(byMedia, accept.value, x);
    }
    ResolveMediaMeaning(byMethod, media, x);
    MethodMatchesMembers(byPath, request.httpMethod, x);
    PathMatchesMembers(table, request.path, x);
  }

  /** Every failure of the accept loop is a ValueError. */
  lemma {:induction false} AcceptMatchesErrors(cands: seq<Resource>, accept: string)
    ensures AcceptMatches(cands, accept).Err? ==> AcceptMatches(cands, accept).error == ValueError
    decreases |cands|
  {
    if cands != [] {
      QForErrors(cands[0], accept);
      AcceptMatchesErrors(cands[1..], accept);
    }
  }

  /** The winner is a resource of the table that matches the request path
      and has the request's method. */
  lemma DispatchWinner(table: seq<Resource>, request: Request)
    requires DispatchOf(table, request).Ok?
    ensures var winner := DispatchOf(table, request).value.0;
            winner in table && MatchOf(winner, request.path).Some? && winner.httpMethod == Some(request.httpMethod)
  {
    var ranking := Stages(table, request).value;
    var sorted := SortDesc(ranking.candidates, DispatchRank(ranking.q));
    assert sorted[0] in multiset(sorted);
    StagesFilter(table, request, sorted[0]);
  }

  /** The winner has the greatest `(q, groups or maxsize, len(path))` among
      the candidates left by the four stages, and no earlier candidate has
      the same key. */
  lemma DispatchBest(table: seq<Resource>, request: Request)
    requires DispatchOf(table, request).Ok?
    ensures var ranking := Stages(table, request).value;
            var cands, key := ranking.candidates, DispatchRank(ranking.q);
            exists i :: 0 <= i < |cands| && cands[i] == DispatchOf(table, request).value.0
              && (forall j :: 0 <= j < |cands| ==> RankLe(key(cands[j]), key(cands[i])))
              && (forall j :: 0 <= j < i ==> key(cands[j]) != key(cands[i]))
  {
    var ranking := Stages(table, request).value;
    SortDescHead(ranking.candidates, DispatchRank(ranking.q));
  }

  /** A literal path outranks a parameterised one of equal q. */
  lemma LiteralOutranks(q: map<Resource, int>, lit: Resource, param: Resource)
    requires (if lit in q then q[lit] else 1000) == (if param in q then q[param] else 1000)
    requires CapCount(lit.pattern) == 0 && 0 < CapCount(param.pattern) < MAXSIZE
    ensures RankLe(DispatchRank(q)(param), DispatchRank(q)(lit)) && DispatchRank(q)(param) != DispatchRank(q)(lit)
  {
  }

  /** The parameters: the path captures by placeholder name, captures that
      spell the request path when put in place of the placeholders; the
      grouped query; and the form parameters. */
  lemma DispatchParams(table: seq<Resource>, request: Request)
    requires DispatchOf(table, request).Ok?
    ensures var (winner, params) := DispatchOf(table, request).value;
            && params.query == GroupQuery(request.query)
            && params.form == FormParams(request)
            && exists caps :: Fills(winner.pattern, StripChars(request.path, Slash), caps)
                              && params.path == GroupDict(winner.pattern, caps)
  {
    DispatchWinner(table, request);
    var winner := DispatchOf(table, request).value.0;
    PathMatchMeaning(winner, request.path);
  }

  /** For a resource built from a path, the path parameters hold exactly
      its placeholder names, each bound to its capture in the match. */
  lemma PathParamsNames(res: Resource, path: string, caps: seq<string>)
    requires Compile(res.path) == Ok(res.pattern) && MatchOf(res, path) == Some(caps)
    ensures |caps| == |Names(res.pattern)|
    ensures forall k :: k in PathParams(res, path) <==> k in Names(res.pattern)
    ensures forall i :: 0 <= i < |caps| ==> PathParams(res, path)[Names(res.pattern)[i]] == caps[i]
  {
    CompileErrors(res.path);
    GreedySound(res.pattern, StripChars(path, Slash));
    GroupDictLookup(res.pattern, caps);
  }

  /** Dispatch fails with NOT_FOUND exactly when no resource matches the
      path; every other failure is one of the other stages' statuses or a
      ValueError or TypeError raised on the way. */
  lemma DispatchErrors(table: seq<Resource>, request: Request)
    ensures DispatchOf(table, request) == Err(Status(NOT_FOUND)) <==>
              forall x :: x in table ==> MatchOf(x, request.path).None?
    ensures DispatchOf(table, request).Err? ==>
              var e := DispatchOf(table, request).error;
              || e in {Status(NOT_FOUND), Status(UNSUPPORTED_MEDIA_TYPE), Status(NOT_ACCEPTABLE), ValueError, TypeError}
              || (e.HttpError? && e.status == METHOD_NOT_ALLOWED && "allow" in e.headers)
  {
    ResolvePathErrors(table, request.path);
    var byPath := ResolvePathOf(table, request.path);
    if byPath.Ok? {
      var byMethod := ResolveMethod(byPath.value, request.httpMethod);
      AllowHeaderFails(MethodsOf(byPath.value));
      if byMethod.Ok? {
        var media := Attr(request.headers, "content-type");
        var byMedia := ResolveMedia(byMethod.value, media);
        ResolveMediaMeaning(byMethod.value, media, byMethod.value[0]);
        var accept := Attr(request.headers, "accept");
        if byMedia.Ok? && accept.Some? && accept.value != "" {
          AcceptMatchesErrors(byMedia.value, accept.value);
        }
      }
    }
  }

  // ---- the dispatcher ------------------------------------------------

  /** `RequestDispatcher`: the candidates of the current stage, the q and
      the match recorded per resource, and the parameters being built. */
  class RequestDispatcher {
    var resources: seq<Resource>
    var qKey: map<Resource, int>
    var mKey: map<Resource, seq<string>>
    var params: Option<Params>

    /** The state `__init__` sets up: nothing recorded yet. */
    predicate Idle()
      reads this
    {
      qKey == map[] && mKey == map[] && params.None?
    }

    constructor (resources: seq<Resource>)
      ensures this.resources == resources && Idle()
    {
      this.resources := resources;
      qKey := map[];
      mKey := map[];
      params := None;
    }

    /** `resolve_path(path)`: keeps the resources whose pattern matches the
        path and records each match. */
    method ResolvePath(path: string) returns (r: Result<seq<Resource>>)
      modifies this
      ensures r == ResolvePathOf(old(resources), path)
      ensures mKey == old(mKey) + MatchMap(old(resources), path)
      ensures resources == old(resources) && qKey == old(qKey) && params == old(params)
    {
      var table := resources;
      var kept := [];
      for i := 0 to |table|
        invariant kept == PathMatches(table[..i], path)
        invariant mKey == old(mKey) + MatchMap(table[..i], path)
        invariant resources == old(resources) && qKey == old(qKey) && params == old(params)
      {
        var res := table[i];
        var m := MatchOf(res, path);
        ResolvePathStep(table, i, path);
        if m.Some? {
          MergeUpdate(old(mKey), MatchMap(table[..i], path), res, m.value);
          mKey := mKey[res := m.value];
          kept := kept + [res];
        }
      }
      assert table[..|table|] == table;
      if kept == [] {
        return Err(Status(NOT_FOUND));
      }
      r := Ok(kept);
    }
  
    /** `resolve_accept(accept)`: with an Accept header, keeps the resources
        with a non-zero q and records each q. What was recorded when it
        fails is left unspecified. */
    method ResolveAccept(accept: Option<string>) returns (r: Result<seq<Resource>>)
      modifies this
      ensures r == ResolveAcceptOf(old(resources), accept)
      ensures r.Ok? ==> qKey == old(qKey) + AcceptQs(old(resources), accept)
      ensures resources == old(resources) && mKey == old(mKey) && params == old(params)
    {
      if accept.None? || accept.value == "" {
        assert qKey + map[] == qKey;
        return Ok(resources);
      }
      var a := accept.value;
      var table := resources;
      var kept := [];
      assert table[..0] == [] && table[0..] == table;
      PrependNothing(AcceptMatches(table, a));
      for i := 0 to |table|
        invariant AcceptMatches(table, a) == Prepend(kept, AcceptMatches(table[i..], a))
        invariant qKey == old(qKey) + QMap(table[..i], a)
        invariant resources == old(resources) && mKey == old(mKey) && params == old(params)
      {
        var res := table[i];
        var q := QFor(res, a);
        assert table[i..][0] == res && table[i..][1..] == table[i + 1..];
        if q.Err? {
          return Err(q.error);
        }
        ghost var rest := AcceptMatches(table[i + 1..], a);
        ghost var before := table[..i];
        assert table[..i + 1] == before + [res];
        QMapSnoc(before, res, a);
        if Kept(q.value) {
          assert AcceptMatches(table[i..], a) == Prepend([res], rest);
          PrependTwice(kept, [res], rest);
          MergeUpdate(old(qKey), QMap(before, a), res, q.value.value);
          qKey := qKey[res := q.value.value];
          kept := kept + [res];
        } else {
          assert AcceptMatches(table[i..], a) == Prepend([], rest);
          PrependNothing(rest);
        }
      }
      assert table[..|table|] == table && table[|table|..] == [];
      assert kept + [] == kept;
      if kept == [] {
        return Err(Status(NOT_ACCEPTABLE));
      }
      r := Ok(kept);
    }
  
    /** The four stages of `dispatch`, each replacing the candidates. */
    method RunStages(request: Request) returns (r: Result<Ranking>)
      requires Idle()
      modifies this
      ensures r == Stages(old(resources), request)
      ensures r.Ok? ==> && resources == r.value.candidates && qKey == r.value.q
                        && mKey == MatchMap(old(resources), request.path)
    {
      var byPath := ResolvePath(request.path);
      if byPath.Err? {
        return Err(byPath.error);
      }
      resources := byPath.value;
      var byMethod := ResolveMethod(resources, request.httpMethod);
      if byMethod.Err? {
        return Err(byMethod.error);
      }
      resources := byMethod.value;
      var byMedia := ResolveMedia(resources, Attr(request.headers, "content-type"));
      if byMedia.Err? {
        return Err(byMedia.error);
      }
      resources := byMedia.value;
      var byAccept := ResolveAccept(Attr(request.headers, "accept"));
      if byAccept.Err? {
        return Err(byAccept.error);
      }
      resources := byAccept.value;
      assert map[] + AcceptQs(byMedia.value, Attr(request.headers, "accept"))
             == AcceptQs(byMedia.value, Attr(request.headers, "accept"));
      assert map[] + MatchMap(old(resources), request.path) == MatchMap(old(resources), request.path);
      r := Ok(Ranking(resources, qKey));
    }

    /** The rest of `dispatch`: the candidates are ranked, the first one
        wins, and the parameters are extracted for it. */
    method Choose(request: Request, ghost table: seq<Resource>) returns (r: (Resource, Params))
      requires Stages(table, request).Ok?
      requires resources == Stages(table, request).value.candidates && qKey == Stages(table, request).value.q
      requires mKey == MatchMap(table, request.path)
      modifies this
      ensures Ok(r) == DispatchOf(table, request)
    {
      resources := SortDesc(resources, DispatchRank(qKey));
      var winner := resources[0];
      assert winner in multiset(resources);
      StagesFilter(table, request, winner);
      var caps := mKey[winner];
      GreedySound(winner.pattern, StripChars(request.path, Slash));
      params := Some(Params(GroupDict(winner.pattern, caps), GroupQuery(request.query), FormParams(request)));
      r := (winner, params.value);
    }

    /** The body of the `try` in `dispatch`. */
    method DispatchStages(request: Request) returns (r: Result<(Resource, Params)>)
      requires Idle()
      modifies this
      ensures r == DispatchOf(old(resources), request)
    {
      ghost var table := resources;
      var ranking := RunStages(request);
      if ranking.Err? {
        return Err(ranking.error);
      }
      var chosen := Choose(request, table);
      r := Ok(chosen);
    }

    /** `dispatch(request)`: whether it returns or raises, the dispatcher is
        re-initialised with the table it started with. */
    method Dispatch(request: Request) returns (r: Result<(Resource, Params)>)
      requires Idle()
      modifies this
      ensures r == DispatchOf(old(resources), request)
      ensures resources == old(resources) && Idle()
    {
      var table := resources;
      r := DispatchStages(request);
      resources := table;
      qKey := map[];
      mKey := map[];
      params := None;
    }
  }

  /** `dispatch(resources, request)` on a fresh dispatcher. */
  method DispatchTable(table: seq<Resource>, request: Request) returns (r: Result<(Resource, Params)>)
    ensures r == DispatchOf(table, request)
  {
    var dispatcher := new RequestDispatcher(table);
    r := dispatcher.Dispatch(request);
  }
}
