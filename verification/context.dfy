/** The execution context of one request (context.py): binding each handler
    argument to a value, the `alias` context property, the per-context
    cache of application properties, and the shaping of a handler's result
    into a response. */
module Contexts {
  import opened Base
  import opened PyStr
  import opened Objects
  import opened Annotations
  import opened Messages
  import opened Resources
  import opened Requests

  // ---- alias ---------------------------------------------------------

  /** The path parameters as argument values. */
  function PathDict(path: map<string, string>): map<string, PyValue> {
    map k | k in path :: PyStr(path[k])
  }

  /** The dictionaries `alias` scans, in order: path, query, form. */
  function AliasDicts(params: Params): seq<map<string, PyValue>> {
    [PathDict(params.path), params.query, params.form]
  }

  /** The value of the first of `aliases` present in `d`. */
  function AliasIn(d: map<string, PyValue>, aliases: seq<string>): Option<PyValue>
    decreases |aliases|
  {
    if aliases == [] then None
    else if aliases[0] in d then Some(d[aliases[0]])
    else AliasIn(d, aliases[1..])
  }

  /** The first hit over the dictionaries in order. */
  function FirstHit(dicts: seq<map<string, PyValue>>, aliases: seq<string>): Option<PyValue>
    decreases |dicts|
  {
    if dicts == [] then None
    else match AliasIn(dicts[0], aliases)
      case Some(v) => Some(v)
      case None => FirstHit(dicts[1..], aliases)
  }

  /** `alias(*aliases, default=...)`: the first hit, else the default, else
      ValueError. */
  function AliasOf(params: Params, aliases: seq<string>, default: Option<PyValue>): Result<PyValue> {
    match FirstHit(AliasDicts(params), aliases)
    case Some(v) => Ok(v)
    case None => if default.Some? then Ok(default.value) else Err(ValueError)
  }

  /** Within one dictionary the first alias present decides. */
  lemma {:induction false} AliasInMeaning(d: map<string, PyValue>, aliases: seq<string>)
    ensures AliasIn(d, aliases).None? <==> forall i :: 0 <= i < |aliases| ==> aliases[i] !in d
    ensures AliasIn(d, aliases).Some? ==>
              exists i :: 0 <= i < |aliases| && aliases[i] in d && AliasIn(d, aliases) == Some(d[aliases[i]])
                && forall j :: 0 <= j < i ==> aliases[j] !in d
    decreases |aliases|
  {
    if aliases != [] && aliases[0] !in d {
      AliasInMeaning(d, aliases[1..]);
      forall i | 0 < i < |aliases| ensures aliases[i] == aliases[1..][i - 1] {
      }
      if AliasIn(d, aliases).Some? {
        var i :| 0 <= i < |aliases| - 1 && aliases[1..][i] in d && AliasIn(d, aliases[1..]) == Some(d[aliases[1..][i]])
                 && forall j :: 0 <= j < i ==> aliases[1..][j] !in d;
        assert forall j :: 0 <= j < i + 1 ==> aliases[j] !in d;
      }
    }
  }

  /** Dictionary order dominates alias order: any alias in the path
      parameters beats every alias in the query, which beats every alias in
      the form; only when no alias is anywhere does the default (or
      ValueError) come in. */
  lemma AliasOrder(params: Params, aliases: seq<string>, default: Option<PyValue>)
    ensures AliasIn(PathDict(params.path), aliases).Some? ==>
              AliasOf(params, aliases, default) == Ok(AliasIn(PathDict(params.path), aliases).value)
    ensures AliasIn(PathDict(params.path), aliases).None? && AliasIn(params.query, aliases).Some? ==>
              AliasOf(params, aliases, default) == Ok(AliasIn(params.query, aliases).value)
    ensures AliasIn(PathDict(params.path), aliases).None? && AliasIn(params.query, aliases).None?
            && AliasIn(params.form, aliases).Some? ==>
              AliasOf(params, aliases, default) == Ok(AliasIn(params.form, aliases).value)
    ensures (forall i :: 0 <= i < |aliases| ==>
               aliases[i] !in params.path && aliases[i] !in params.query && aliases[i] !in params.form) ==>
              AliasOf(params, aliases, default) == (if default.Some? then Ok(default.value) else Err(ValueError))
  {
    var dicts := AliasDicts(params);
    var path := PathDict(params.path);
    assert dicts[1..] == [params.query, params.form] && dicts[1..][1..] == [params.form];
    assert FirstHit(dicts, aliases) == if AliasIn(path, aliases).Some? then AliasIn(path, aliases) else FirstHit(dicts[1..], aliases);
    assert FirstHit(dicts[1..], aliases) ==
             if AliasIn(params.query, aliases).Some? then AliasIn(params.query, aliases) else FirstHit(dicts[1..][1..], aliases);
    assert FirstHit(dicts[1..][1..], aliases) == AliasIn(params.form, aliases);
    if forall i :: 0 <= i < |aliases| ==> aliases[i] !in params.path && aliases[i] !in params.query && aliases[i] !in params.form {
      AliasInMeaning(path, aliases);
      AliasInMeaning(params.query, aliases);
      AliasInMeaning(params.form, aliases);
    }
  }

  /** `Context.alias`: the nested loops over the dictionaries and the
      aliases, returning at the first hit. */
  method Alias(params: Params, aliases: seq<string>, default: Option<PyValue>) returns (r: Result<PyValue>)
    ensures r == AliasOf(params, aliases, default)
  {
    var dicts := AliasDicts(params);
    for d := 0 to |dicts|
      invariant FirstHit(dicts, aliases) == FirstHit(dicts[d..], aliases)
    {
      var dict := dicts[d];
      for i := 0 to |aliases|
        invariant AliasIn(dict, aliases) == AliasIn(dict, aliases[i..])
      {
        assert aliases[i..][1..] == aliases[i + 1..];
        if aliases[i] in dict {
          return Ok(dict[aliases[i]]);
        }
      }
      assert dicts[d..][1..] == dicts[d + 1..];
    }
    if default.None? {
      return Err(ValueError);
    }
    r := Ok(default.value);
  }

  // ---- argument binding ----------------------------------------------

  /** `prop.__get__(context)`: `alias` is evaluated; `request` and `uri`
      yield values of the request; `entity` yields `entity`, which is the
      request entity passed through the resource's consumer, or the
      exception that consumer raised. */
  function PropertyValue(prop: ContextProperty, params: Params, entity: Result<PyValue>): Result<PyValue> {
    match prop
    case Alias(aliases, default) => AliasOf(params, aliases, default)
    case EntityProperty => entity
    case _ => Ok(PyPropertyValue(prop))
  }

  /** The `except ValueError` around the binding loop: a ValueError becomes
      BAD_REQUEST, any other exception passes through. */
  function Caught(e: Failure): Failure {
    if e == ValueError then Status(BAD_REQUEST) else e
  }

  /** The value bound to argument `i`, named `arg`: the host instance for
      argument 0 of a hosted handler; else a context-property default,
      evaluated; else the path, query or form parameter of that name; else
      the declared default; else BAD_REQUEST. */
  function BindArg(res: Resource, params: Params, entity: Result<PyValue>, i: nat, arg: string): Result<PyValue> {
    if i == 0 && res.host.Some? then Ok(PyInstance(res.host.value))
    else if arg in res.argsDefs && res.argsDefs[arg].PyProperty? then
      match PropertyValue(res.argsDefs[arg].prop, params, entity)
      case Ok(v) => Ok(v)
      case Err(e) => Err(Caught(e))
    else if arg in params.path then Ok(PyStr(params.path[arg]))
    else if arg in params.query then Ok(params.query[arg])
    else if arg in params.form then Ok(params.form[arg])
    else if arg in res.argsDefs then Ok(res.argsDefs[arg])
    else Err(Status(BAD_REQUEST))
  }

  /** `dict(get_target_params())` over the first `n` arguments: one binding
      per argument in order; the first failure ends it. */
  function BindFirst(res: Resource, params: Params, entity: Result<PyValue>, n: nat): Result<seq<(string, PyValue)>>
    requires n <= |res.args|
  {
    if n == 0 then Ok([])
    else
      var init :- BindFirst(res, params, entity, n - 1);
      var v :- BindArg(res, params, entity, n - 1, res.args[n - 1]);
      Ok(init + [(res.args[n - 1], v)])
  }

  function TargetParams(res: Resource, params: Params, entity: Result<PyValue>): Result<seq<(string, PyValue)>> {
    BindFirst(res, params, entity, |res.args|)
  }

  /** Exactly one binding per declared argument, in declaration order, each
      to the value its sources give; binding fails exactly when some
      argument fails, with the failure of the first argument that fails,
      which is BAD_REQUEST unless a consumer raised something other than a
      ValueError. */
  lemma {:induction false} BindFirstMeaning(res: Resource, params: Params, entity: Result<PyValue>, n: nat)
    requires n <= |res.args|
    ensures BindFirst(res, params, entity, n).Ok? ==>
              var bs := BindFirst(res, params, entity, n).value;
              && |bs| == n
              && forall i :: 0 <= i < n ==> BindArg(res, params, entity, i, res.args[i]).Ok?
                                            && bs[i] == (res.args[i], BindArg(res, params, entity, i, res.args[i]).value)
    ensures BindFirst(res, params, entity, n).Err? <==>
              exists i :: 0 <= i < n && BindArg(res, params, entity, i, res.args[i]).Err?
    ensures BindFirst(res, params, entity, n).Err? ==>
              exists i :: 0 <= i < n && BindArg(res, params, entity, i, res.args[i]).Err?
                && BindFirst(res, params, entity, n).error == BindArg(res, params, entity, i, res.args[i]).error
                && forall j :: 0 <= j < i ==> BindArg(res, params, entity, j, res.args[j]).Ok?
    ensures BindFirst(res, params, entity, n).Err? && (entity.Ok? || entity.error == ValueError) ==>
              BindFirst(res, params, entity, n).error == Status(BAD_REQUEST)
  {
    if n > 0 {
      BindFirstMeaning(res, params, entity, n - 1);
      BindArgErrors(res, params, entity, n - 1, res.args[n - 1]);
    }
  }

  /** An argument fails with BAD_REQUEST, or with the exception the
      consumer raised when that is not a ValueError. */
  lemma BindArgErrors(res: Resource, params: Params, entity: Result<PyValue>, i: nat, arg: string)
    ensures BindArg(res, params, entity, i, arg).Err? ==>
              || BindArg(res, params, entity, i, arg).error == Status(BAD_REQUEST)
              || (entity.Err? && entity.error != ValueError && BindArg(res, params, entity, i, arg).error == entity.error)
  {
  }

  /** The precedence of sources: a hosted handler's first argument is the
      host instance; otherwise a context-property default comes first, then
      path, query and form parameters, then the declared default. */
  lemma BindPrecedence(res: Resource, params: Params, entity: Result<PyValue>, i: nat, arg: string)
    ensures i == 0 && res.host.Some? ==> BindArg(res, params, entity, i, arg) == Ok(PyInstance(res.host.value))
    ensures !(i == 0 && res.host.Some?) && !(arg in res.argsDefs && res.argsDefs[arg].PyProperty?) ==>
              && (arg in params.path ==> BindArg(res, params, entity, i, arg) == Ok(PyStr(params.path[arg])))
              && (arg !in params.path && arg in params.query ==> BindArg(res, params, entity, i, arg) == Ok(params.query[arg]))
              && (arg !in params.path && arg !in params.query && arg in params.form ==>
                    BindArg(res, params, entity, i, arg) == Ok(params.form[arg]))
              && (arg !in params.path && arg !in params.query && arg !in params.form ==>
                    BindArg(res, params, entity, i, arg) == (if arg in res.argsDefs then Ok(res.argsDefs[arg]) else Err(Status(BAD_REQUEST))))
  {
  }

  /** An `alias` default that finds nothing and has no default of its own
      turns into BAD_REQUEST. */
  lemma AliasMissIsBadRequest(res: Resource, params: Params, entity: Result<PyValue>, i: nat, arg: string)
    requires !(i == 0 && res.host.Some?)
    requires arg in res.argsDefs && res.argsDefs[arg].PyProperty? && res.argsDefs[arg].prop.Alias?
    requires res.argsDefs[arg].prop.default.None?
    requires forall j :: 0 <= j < |res.argsDefs[arg].prop.aliases| ==>
               var a := res.argsDefs[arg].prop.aliases[j];
               a !in params.path && a !in params.query && a !in params.form
    ensures BindArg(res, params, entity, i, arg) == Err(Status(BAD_REQUEST))
  {
    AliasOrder(params, res.argsDefs[arg].prop.aliases, None);
  }

  /** An argument whose default is the `entity` property gets the consumed
      entity; a consumer that raises ValueError makes it BAD_REQUEST, and
      any other exception of the consumer passes through, whatever the
      request's parameters hold. */
  lemma EntityArgument(res: Resource, params: Params, entity: Result<PyValue>, i: nat, arg: string)
    requires !(i == 0 && res.host.Some?)
    requires arg in res.argsDefs && res.argsDefs[arg] == PyProperty(EntityProperty)
    ensures entity.Ok? ==> BindArg(res, params, entity, i, arg) == entity
    ensures entity == Err(ValueError) ==> BindArg(res, params, entity, i, arg) == Err(Status(BAD_REQUEST))
    ensures entity.Err? && entity.error != ValueError ==> BindArg(res, params, entity, i, arg) == entity
  {
  }

  /** `get_target_params()` consumed by `dict`: the loop over the
      arguments, stopping at the first failure. */
  method GetTargetParams(res: Resource, params: Params, entity: Result<PyValue>) returns (r: Result<seq<(string, PyValue)>>)
    ensures r == TargetParams(res, params, entity)
  {
    var bindings := [];
    for i := 0 to |res.args|
      invariant BindFirst(res, params, entity, i) == Ok(bindings)
    {
      var arg := res.args[i];
      var v := BindArg(res, params, entity, i, arg);
      if v.Err? {
        BindFirstFails(res, params, entity, i + 1, |res.args|);
        return Err(v.error);
      }
      bindings := bindings + [(arg, v.value)];
    }
    r := Ok(bindings);
  }

  /** A failure at argument `n - 1` is the failure of every longer binding. */
  lemma {:induction false} BindFirstFails(res: Resource, params: Params, entity: Result<PyValue>, n: nat, m: nat)
    requires 0 < n <= m <= |res.args| && BindFirst(res, params, entity, n - 1).Ok?
    requires BindArg(res, params, entity, n - 1, res.args[n - 1]).Err?
    ensures BindFirst(res, params, entity, m) == Err(BindArg(res, params, entity, n - 1, res.args[n - 1]).error)
    decreases m
  {
    if m > n {
      BindFirstFails(res, params, entity, n, m - 1);
    }
  }

  /** A `context_property` object is always falsy. */
  lemma PropertyFalsy(p: ContextProperty)
    ensures !Truthy(PyProperty(p))
  {
  }

  // ---- application properties ----------------------------------------

  /** `application_property`: a property computed once per context and
      kept in a cache until deleted. */
  class ApplicationProperty {
    var cache: map<ObjId, PyValue>

    constructor ()
      ensures cache == map[]
    {
      cache := map[];
    }

    /** `__get__(context)`: the cached value, computing and caching it on
        the first read. */
    method Get(context: ObjId, fget: ObjId -> PyValue) returns (v: PyValue)
      modifies this
      ensures context in old(cache) ==> v == old(cache)[context] && cache == old(cache)
      ensures context !in old(cache) ==> v == fget(context) && cache == old(cache)[context := v]
    {
      if context !in cache {
        cache := cache[context := fget(context)];
      }
      v := cache[context];
    }

    /** `__delete__(context)`: forgets that context's value only. */
    method Delete(context: ObjId)
      modifies this
      ensures cache == old(cache) - {context}
    {
      if context in cache {
        cache := cache - {context};
      }
    }
  }

  // ---- responses -----------------------------------------------------

  /** What a handler call returns: None, a tuple `(entity, status,
      headers)` (missing parts None), any other value (its entity), or a
      Response of its own. */
  datatype HandlerResult =
    | NoneResult
    | TupleResult(entity: Option<string>, status: Option<int>, headers: seq<(string, string)>)
    | ValueResult(value: string)
    | ResponseResult(response: Response)

  /** The observable state of a response. */
  datatype Outcome = Outcome(status: int, headers: map<string, string>, entity: Option<string>)

  function Snapshot(r: Result<Response>): Result<Outcome>
    reads if r.Ok? then {r.value} else {}
  {
    if r.Ok? then Ok(Outcome(r.value.status, r.value.headers, r.value.entity)) else Err(r.error)
  }

  /** `status or OK` */
  function StatusOr(status: Option<int>): int {
    if status.None? || status.value == 0 then OK else status.value
  }

  /** The entity after the resource's producer transform, if it has one. */
  function Produced(res: Resource, entity: Option<string>, produce: Option<string> -> Option<string>): Option<string> {
    if res.producer.Some? && res.producer.value.transform.Some? then produce(entity) else entity
  }

  /** The media type the response is written with: the producer's. */
  function ProducedMedia(res: Resource): Option<string> {
    if res.producer.Some? then Some(res.producer.value.media) else None
  }

  /** The headers `set_entity` writes onto a fresh response. */
  function EntityHeaders(entity: Option<string>, media: Option<string>): Result<map<string, string>> {
    if entity.None? then Ok(map[])
    else
      var parsed :- ParseMedia(MediaOrDefault(media));
      Ok(map["content-type" := ContentType(parsed), "content-length" := Decimal(|entity.value|)])
  }

  /** `make_response(entity, status, headers)` */
  function MakeResponseOf(res: Resource, entity: Option<string>, status: Option<int>,
                          headers: seq<(string, string)>, produce: Option<string> -> Option<string>): Result<Outcome>
  {
    var e := Produced(res, entity, produce);
    var written :- EntityHeaders(e, ProducedMedia(res));
    Ok(Outcome(StatusOr(status), written + FromPairs(LoweredPairs(headers)), e))
  }

  /** Only an unparsable media type for an entity fails, with ValueError. */
  lemma MakeResponseErrors(res: Resource, entity: Option<string>, status: Option<int>,
                           headers: seq<(string, string)>, produce: Option<string> -> Option<string>)
    ensures var r := MakeResponseOf(res, entity, status, headers, produce);
            && (r.Err? <==> Produced(res, entity, produce).Some? && ParseMedia(MediaOrDefault(ProducedMedia(res))).Err?)
            && (r.Err? ==> r.error == ValueError)
  {
    ParseMediaResult(MediaOrDefault(ProducedMedia(res)));
  }

  /** The status is the one given, OK when none (or 0) is given; the
      entity is the produced one; without an entity the headers are the
      handler's alone, and headers the handler gives always override the
      ones the entity writes. */
  lemma MakeResponseFields(res: Resource, entity: Option<string>, status: Option<int>,
                           headers: seq<(string, string)>, produce: Option<string> -> Option<string>)
    requires MakeResponseOf(res, entity, status, headers, produce).Ok?
    ensures var o := MakeResponseOf(res, entity, status, headers, produce).value;
            var given := FromPairs(LoweredPairs(headers));
            && o.status == (if status.Some? && status.value != 0 then status.value else OK)
            && o.entity == Produced(res, entity, produce)
            && (o.entity.None? ==> o.headers == given)
            && forall k :: k in given ==> k in o.headers && o.headers[k] == given[k]
  {
    var e := Produced(res, entity, produce);
    if e.None? {
      assert map[] + FromPairs(LoweredPairs(headers)) == FromPairs(LoweredPairs(headers));
    }
  }

  /** A length written by `make_response` reads back as the entity's
      length. */
  lemma ContentLengthReads(res: Resource, entity: Option<string>, status: Option<int>,
                           headers: seq<(string, string)>, produce: Option<string> -> Option<string>)
    requires MakeResponseOf(res, entity, status, headers, produce).Ok?
    requires Produced(res, entity, produce).Some? && "content-length" !in FromPairs(LoweredPairs(headers))
    ensures var o := MakeResponseOf(res, entity, status, headers, produce).value;
            && "content-length" in o.headers && AllDigits(o.headers["content-length"])
            && DecimalValue(o.headers["content-length"]) == |Produced(res, entity, produce).value|
  {
    var o := MakeResponseOf(res, entity, status, headers, produce).value;
    assert o.headers["content-length"] == Decimal(|Produced(res, entity, produce).value|);
    DecimalRoundTrip(|Produced(res, entity, produce).value|);
  }

  /** `make_response`: a response with the status, the entity written with
      the producer's media type, then the handler's headers. */
  method MakeResponse(res: Resource, entity: Option<string>, status: Option<int>,
                      headers: seq<(string, string)>, produce: Option<string> -> Option<string>)
    returns (r: Result<Response>)
    ensures r.Ok? ==> fresh(r.value)
    ensures Snapshot(r) == MakeResponseOf(res, entity, status, headers, produce)
  {
    var response := new Response(StatusOr(status), map[], None);
    var media := None;
    var e := entity;
    if res.producer.Some? {
      media := Some(res.producer.value.media);
      if res.producer.value.transform.Some? {
        e := produce(e);
      }
    }
    ParseMediaResult(MediaOrDefault(media));
    var written := SetEntity(response, e, media);
    if written.Err? {
      return Err(written.error);
    }
    assert e.Some? ==> map[]["content-type" := ContentType(ParseMedia(MediaOrDefault(media)).value)]
                            ["content-length" := Decimal(|e.value|)]
                       == EntityHeaders(e, media).value;
    SetHeaders(response, headers);
    r := Ok(response);
  }

  /** `get_response()`: the handler is called with the bound arguments,
      and its result shaped into a response. */
  method GetResponse(res: Resource, params: Params, entity: Result<PyValue>, call: seq<(string, PyValue)> -> HandlerResult,
                     produce: Option<string> -> Option<string>) returns (r: Result<Response>)
    ensures TargetParams(res, params, entity).Err? ==> r == Err(TargetParams(res, params, entity).error)
    ensures TargetParams(res, params, entity).Ok? ==>
              match call(TargetParams(res, params, entity).value)
              case NoneResult => r.Ok? && fresh(r.value) && Snapshot(r) == Ok(Outcome(NO_CONTENT, map[], None))
              case TupleResult(e, s, h) =>
                (r.Ok? ==> fresh(r.value)) && Snapshot(r) == MakeResponseOf(res, e, s, h, produce)
              case ValueResult(v) =>
                (r.Ok? ==> fresh(r.value)) && Snapshot(r) == MakeResponseOf(res, Some(v), None, [], produce)
              case ResponseResult(response) => r == Ok(response)
  {
    var bindings := GetTargetParams(res, params, entity);
    if bindings.Err? {
      return Err(bindings.error);
    }
    var result := call(bindings.value);
    match result
    case NoneResult =>
      var response := new Response(NO_CONTENT, map[], None);
      r := Ok(response);
    case TupleResult(e, s, h) =>
      r := MakeResponse(res, e, s, h, produce);
    case ValueResult(v) =>
      r := MakeResponse(res, Some(v), None, [], produce);
    case ResponseResult(response) =>
      r := Ok(response);
  }
}
