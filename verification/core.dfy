/** Handler annotations (core.py): the RestDict record attached to an
    annotated class or function, the decorators that fill it, and the
    registry of annotated targets. */
module Annotations {
  import opened Base
  import opened PyStr
  import opened Objects

  /** `RestDict.__getattr__`: reading an attribute that was never set yields
      None instead of failing. */
  function Attr<V>(d: map<string, V>, k: string): (r: Option<V>)
    ensures r.None? <==> k !in d
    ensures r.Some? ==> k in d && r.value == d[k]
  {
    if k in d then Some(d[k]) else None
  }

  /** A `produces`/`consumes` declaration: the lower-cased media type and the
      transform to apply (None: the entity passes through unchanged). */
  datatype MediaDecl = MediaDecl(media: string, transform: Option<ObjId>)

  /** The RestDict of one target. The decorators only ever write these four
      attributes; an attribute not yet written reads as None. */
  datatype Record = Record(
    httpMethod: Option<string>,
    path: Option<string>,
    producer: Option<MediaDecl>,
    consumer: Option<MediaDecl>)

  const EmptyRecord := Record(None, None, None, None)

  /** One decorator application: `method(name)`, `path(pattern)`,
      `produces(media, producer)` or `consumes(media, consumer)`. */
  datatype Annotation =
    | Method(name: string)
    | Path(pattern: string)
    | Produces(media: string, producer: Option<ObjId>)
    | Consumes(media: string, consumer: Option<ObjId>)

  const GET := Method("GET")
  const POST := Method("POST")
  const PUT := Method("PUT")
  const DELETE := Method("DELETE")

  const PathSeparators: set<char> := {'/', '\\'}

  /** The value `path(pattern)` stores: one leading `/`, then the pattern
      without surrounding slashes or backslashes and with every remaining
      backslash turned into a slash. */
  function NormalizePath(pattern: string): (r: string)
    ensures |r| >= 1 && r[0] == '/'
    ensures '\\' !in r
    ensures |r| > 1 ==> r[1] != '/' && r[|r| - 1] != '/'
    ensures |r| == |StripChars(pattern, PathSeparators)| + 1
  {
    var core := StripChars(pattern, PathSeparators);
    var r := "/" + ReplaceChar(core, '\\', '/');
    assert forall i :: 1 <= i < |r| ==> r[i] == (if core[i - 1] == '\\' then '/' else core[i - 1]);
    r
  }

  /** A stored path is its own normal form. */
  lemma NormalizeStored(core: string)
    requires '\\' !in core
    requires core != [] ==> core[0] != '/' && core[|core| - 1] != '/'
    ensures NormalizePath("/" + core) == "/" + core
  {
    assert AllIn("/", PathSeparators);
    StripSkipsPrefix("/", core, PathSeparators);
    if core != [] {
      StripCharsNoop(core, PathSeparators);
    }
    assert ReplaceChar(core, '\\', '/') == core;
  }

  /** Normalising a stored path again changes nothing. */
  lemma NormalizePathIdempotent(pattern: string)
    ensures NormalizePath(NormalizePath(pattern)) == NormalizePath(pattern)
  {
    var p := NormalizePath(pattern);
    assert p == "/" + p[1..];
    NormalizeStored(p[1..]);
  }

  /** The value a decorator computes before storing it. */
  function MethodValue(a: Annotation): Option<string> {
    if a.Method? then Some(a.name) else None
  }

  function PathValue(a: Annotation): Option<string> {
    if a.Path? then Some(NormalizePath(a.pattern)) else None
  }

  function ProducerValue(a: Annotation): Option<MediaDecl> {
    if a.Produces? then Some(MediaDecl(Lower(a.media), a.producer)) else None
  }

  function ConsumerValue(a: Annotation): Option<MediaDecl> {
    if a.Consumes? then Some(MediaDecl(Lower(a.media), a.consumer)) else None
  }

  /** `rest_dict.<attr> = value`, which RestDict turns into `setdefault`: an
      attribute already present is never overwritten, and a decorator writes
      only its own attribute. */
  function Write(rec: Record, a: Annotation): (r: Record)
    ensures rec.httpMethod.Some? || !a.Method? ==> r.httpMethod == rec.httpMethod
    ensures rec.path.Some? || !a.Path? ==> r.path == rec.path
    ensures rec.producer.Some? || !a.Produces? ==> r.producer == rec.producer
    ensures rec.consumer.Some? || !a.Consumes? ==> r.consumer == rec.consumer
    ensures rec.httpMethod.None? && a.Method? ==> r.httpMethod == Some(a.name)
    ensures rec.path.None? && a.Path? ==> r.path == Some(NormalizePath(a.pattern))
    ensures rec.producer.None? && a.Produces? ==> r.producer == Some(MediaDecl(Lower(a.media), a.producer))
    ensures rec.consumer.None? && a.Consumes? ==> r.consumer == Some(MediaDecl(Lower(a.media), a.consumer))
  {
    match a
    case Method(name) => if rec.httpMethod.None? then rec.(httpMethod := Some(name)) else rec
    case Path(p) => if rec.path.None? then rec.(path := Some(NormalizePath(p))) else rec
    case Produces(m, f) => if rec.producer.None? then rec.(producer := Some(MediaDecl(Lower(m), f))) else rec
    case Consumes(m, f) => if rec.consumer.None? then rec.(consumer := Some(MediaDecl(Lower(m), f))) else rec
  }

  /** The record after applying `anns` in order (decorators apply bottom-up,
      so `anns[0]` is the decorator written closest to the target). */
  function WriteAll(rec: Record, anns: seq<Annotation>): Record
    decreases |anns|
  {
    if anns == [] then rec else WriteAll(Write(rec, anns[0]), anns[1..])
  }

  /** The value the first decorator in `anns` that computes one gives. */
  function FirstValue<T>(anns: seq<Annotation>, value: Annotation -> Option<T>): Option<T>
    decreases |anns|
  {
    if anns == [] then None
    else if value(anns[0]).Some? then value(anns[0])
    else FirstValue(anns[1..], value)
  }

  /** First write wins: after a series of decorators, each attribute holds
      the value it had, or else the value of the first decorator that writes it. */
  lemma {:induction false} FirstWriteWins(rec: Record, anns: seq<Annotation>)
    ensures WriteAll(rec, anns).httpMethod == (if rec.httpMethod.Some? then rec.httpMethod else FirstValue(anns, MethodValue))
    ensures WriteAll(rec, anns).path == (if rec.path.Some? then rec.path else FirstValue(anns, PathValue))
    ensures WriteAll(rec, anns).producer == (if rec.producer.Some? then rec.producer else FirstValue(anns, ProducerValue))
    ensures WriteAll(rec, anns).consumer == (if rec.consumer.Some? then rec.consumer else FirstValue(anns, ConsumerValue))
    decreases |anns|
  {
    if anns != [] {
      FirstWriteWins(Write(rec, anns[0]), anns[1..]);
    }
  }

  /** The module-level `registry` set together with the RestDict attached to
      each annotated object (its `__rest_dict__` attribute). */
  class Registry {
    var registry: set<ObjId>
    var records: map<ObjId, Record>

    /** An object has a record exactly when it was added to the registry. */
    ghost predicate Valid()
      reads this
    {
      registry == records.Keys
    }

    constructor ()
      ensures Valid()
      ensures registry == {} && records == map[]
    {
      registry := {};
      records := map[];
    }

    /** `rest_api(rest_func)(target)`: type-checks the target, creates its
        record and registers it on the first annotation, applies the
        decorator, and returns the target itself. */
    method Annotate(target: PyObj, a: Annotation) returns (r: Result<PyObj>)
      requires Valid()
      modifies this
      ensures Valid()
      ensures !IsClassOrFunction(target) ==>
                r == Err(TypeError) && registry == old(registry) && records == old(records)
      ensures IsClassOrFunction(target) ==>
                && r == Ok(target)
                && registry == old(registry) + {target.id}
                && records == old(records)[target.id :=
                     Write(if target.id in old(records) then old(records)[target.id] else EmptyRecord, a)]
      ensures target.id in old(records) ==> registry == old(registry)
    {
      if !IsClassOrFunction(target) {
        return Err(TypeError);
      }
      if target.id !in records {
        records := records[target.id := EmptyRecord];
        registry := registry + {target.id};
      }
      records := records[target.id := Write(records[target.id], a)];
      return Ok(target);
    }
  }
}
