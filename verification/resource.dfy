/** Building the resource table (resource.py): walking annotated classes
    and functions, composing each handler's path from the records of its
    enclosing classes, compiling the path pattern and collecting the
    handler's argument defaults. */
module Resources {
  import opened Base
  import opened PyStr
  import opened Lists
  import opened Objects
  import opened Annotations
  import opened PathPatterns

  /** A built resource (resource.py:18-35): what the handler's own record
      declares, the composed path and its compiled pattern, the handler, its
      host class, and its argument names and defaults. */
  datatype Resource = Resource(
    httpMethod: Option<string>,
    path: string,
    consumer: Option<MediaDecl>,
    producer: Option<MediaDecl>,
    pattern: seq<Token>,
    target: ObjId,
    host: Option<ObjId>,
    args: seq<string>,
    argsDefs: map<string, PyValue>)

  /** `if rest_dict.path:` */
  predicate HasPath(rec: Record) {
    rec.path.Some? && rec.path.value != ""
  }

  /** One step of the path loop: `path.rstrip('/') + '/' + rec.path.strip('/')`
      for a record with a path; a record without one is skipped. */
  function PathStep(acc: string, rec: Record): string {
    if HasPath(rec) then RStrip(acc, Slash) + "/" + StripChars(rec.path.value, Slash) else acc
  }

  /** The path built from a chain of records, starting from `'/'`. */
  function PathOf(chain: seq<Record>): string
    decreases |chain|
  {
    if chain == [] then "/" else PathStep(PathOf(chain[..|chain| - 1]), chain[|chain| - 1])
  }

  /** The non-empty slash-stripped path segments of a chain, outer to inner. */
  function Segments(chain: seq<Record>): (r: seq<string>)
    ensures forall i :: 0 <= i < |r| ==> r[i] != [] && r[i][0] != '/' && r[i][|r[i]| - 1] != '/'
    decreases |chain|
  {
    if chain == [] then []
    else
      var rec := chain[|chain| - 1];
      var seg := if HasPath(rec) then StripChars(rec.path.value, Slash) else "";
      Segments(chain[..|chain| - 1]) + (if seg != "" then [seg] else [])
  }

  /** The segments joined by `/` neither start nor end with a slash. */
  lemma JoinedSegments(chain: seq<Record>)
    ensures var j := Join(Segments(chain), "/");
            (j == []) == (Segments(chain) == []) && (j != [] ==> j[0] != '/' && j[|j| - 1] != '/')
  {
    var segs := Segments(chain);
    if segs != [] {
      JoinEnds(segs, "/");
    }
  }

  /** `rstrip('/')` of a path of that shape: `/` and the joined segments,
      or nothing when there are none. */
  lemma RStripShape(acc: string, j: string)
    requires j != [] ==> j[0] != '/' && j[|j| - 1] != '/'
    requires acc == "/" + j || (j != [] && acc == "/" + j + "/")
    ensures RStrip(acc, Slash) == if j == [] then "" else "/" + j
  {
    assert AllIn("/", Slash);
    if j == [] {
      assert acc == "" + "/";
      RStripIs("", "/", Slash);
    } else if acc == "/" + j {
      assert acc == acc + "";
      RStripIs(acc, "", Slash);
    } else {
      RStripIs("/" + j, "/", Slash);
    }
  }

  /** One step of the path loop keeps the shape below. */
  lemma ShapeStep(acc: string, segs: seq<string>, seg: string)
    requires var j := Join(segs, "/");
             && (j == []) == (segs == []) && (j != [] ==> j[0] != '/' && j[|j| - 1] != '/')
             && (acc == "/" + j || (j != [] && acc == "/" + j + "/"))
    ensures var segs' := segs + (if seg != "" then [seg] else []);
            var j' := Join(segs', "/");
            var acc' := RStrip(acc, Slash) + "/" + seg;
            acc' == "/" + j' || (j' != [] && acc' == "/" + j' + "/")
  {
    var j := Join(segs, "/");
    RStripShape(acc, j);
    if seg != "" {
      if j != [] {
        JoinSnoc(segs, seg, "/");
      } else {
        assert segs + [seg] == [seg];
      }
    } else {
      assert segs + [] == segs;
    }
  }

  /** The path loop keeps this shape: `/`, the joined segments, and at most
      one slash more when the last path seen stripped to nothing. */
  lemma {:induction false} PathShape(chain: seq<Record>)
    ensures var j := Join(Segments(chain), "/");
            PathOf(chain) == "/" + j || (j != [] && PathOf(chain) == "/" + j + "/")
    decreases |chain|
  {
    if chain != [] {
      var init := chain[..|chain| - 1];
      var rec := chain[|chain| - 1];
      var acc, segs := PathOf(init), Segments(init);
      PathShape(init);
      JoinedSegments(init);
      if HasPath(rec) {
        var seg := StripChars(rec.path.value, Slash);
        assert PathOf(chain) == RStrip(acc, Slash) + "/" + seg;
        assert Segments(chain) == segs + (if seg != "" then [seg] else []);
        ShapeStep(acc, segs, seg);
      } else {
        assert PathOf(chain) == acc;
        assert Segments(chain) == segs + [];
        assert segs + [] == segs;
      }
    }
  }

  /** A composed path always starts with `/`; with the slashes at its ends
      removed it is the chain's non-empty segments joined by `/`, so with
      no path annotation at all it is `/`. */
  lemma ComposedPath(chain: seq<Record>)
    ensures PathOf(chain) != [] && PathOf(chain)[0] == '/'
    ensures StripChars(PathOf(chain), Slash) == Join(Segments(chain), "/")
    ensures Segments(chain) == [] ==> PathOf(chain) == "/"
  {
    PathShape(chain);
    JoinedSegments(chain);
    var j := Join(Segments(chain), "/");
    assert AllIn("/", Slash);
    if PathOf(chain) == "/" + j {
      assert PathOf(chain) == "/" + j + "";
    }
    StripMiddle("/", j, if PathOf(chain) == "/" + j then "" else "/", Slash);
  }

  /** `dict(zip(keys, vals))`: pairs up to the shorter length, later pairs
      overriding earlier ones. */
  function ZipMap<K, V>(keys: seq<K>, vals: seq<V>): map<K, V>
    decreases |keys|
  {
    var n := if |keys| < |vals| then |keys| else |vals|;
    if n == 0 then map[] else ZipMap(keys[..n - 1], vals[..n - 1])[keys[n - 1] := vals[n - 1]]
  }

  /** The default-argument map: the last `len(defaults)` argument names
      zipped with the defaults; empty when there are no defaults. */
  function DefaultsMap(args: seq<string>, defaults: seq<PyValue>): map<string, PyValue> {
    if defaults == [] then map[]
    else ZipMap(args[if |defaults| <= |args| then |args| - |defaults| else 0..], defaults)
  }

  lemma {:induction false} ZipMapLookup<K, V>(keys: seq<K>, vals: seq<V>)
    requires |keys| == |vals| && NoDuplicates(keys)
    ensures forall k :: k in ZipMap(keys, vals) <==> k in keys
    ensures forall i :: 0 <= i < |keys| ==> ZipMap(keys, vals)[keys[i]] == vals[i]
    decreases |keys|
  {
    if keys != [] {
      var n := |keys|;
      ZipMapLookup(keys[..n - 1], vals[..n - 1]);
      forall i | 0 <= i < n - 1 ensures keys[i] != keys[n - 1] && keys[..n - 1][i] == keys[i] {
      }
      assert keys == keys[..n - 1] + [keys[n - 1]];
    }
  }

  /** Each of the last `k` argument names maps to its default, in order,
      and nothing else is in the map. */
  lemma DefaultsPairing(args: seq<string>, defaults: seq<PyValue>)
    requires |defaults| <= |args| && NoDuplicates(args)
    ensures forall a :: a in DefaultsMap(args, defaults) <==> a in args[|args| - |defaults|..]
    ensures forall i :: 0 <= i < |defaults| ==>
              DefaultsMap(args, defaults)[args[|args| - |defaults| + i]] == defaults[i]
  {
    var tail := args[|args| - |defaults|..];
    if defaults != [] {
      forall i, j | 0 <= i < j < |tail| ensures tail[i] != tail[j] {
        assert tail[i] == args[|args| - |defaults| + i] && tail[j] == args[|args| - |defaults| + j];
      }
      ZipMapLookup(tail, defaults);
      forall i | 0 <= i < |defaults| ensures args[|args| - |defaults| + i] == tail[i] {
      }
    }
  }

  /** The record attached to an annotated object, as a one-element list. */
  function OwnRecord(o: PyObj, records: map<ObjId, Record>): seq<Record> {
    if o.id in records then [records[o.id]] else []
  }

  /** `build_resource(target, host)` with the path chain `chain`: method,
      consumer and producer from the target's own record, the path from the
      chain followed by that record, and the compiled pattern. */
  function ResourceOf(target: PyObj, host: Option<ObjId>, rec: Record, chain: seq<Record>): Result<Resource>
    requires target.Function?
  {
    var path := PathOf(chain + [rec]);
    var pattern :- Compile(path);
    Ok(Resource(rec.httpMethod, path, rec.consumer, rec.producer, pattern,
                target.id, host, target.args, DefaultsMap(target.args, target.defaults)))
  }

  /** `resources` followed by what `rest` builds; a failure wins. */
  function Prepend(resources: seq<Resource>, rest: Result<seq<Resource>>): Result<seq<Resource>> {
    if rest.Err? then rest else Ok(resources + rest.value)
  }

  lemma PrependNothing(rest: Result<seq<Resource>>)
    ensures Prepend([], rest) == rest
  {
    if rest.Ok? {
      assert [] + rest.value == rest.value;
    }
  }

  /** Prepending in two steps is prepending the concatenation. */
  lemma PrependTwice(a: seq<Resource>, b: seq<Resource>, rest: Result<seq<Resource>>)
    ensures Prepend(a, Prepend(b, rest)) == Prepend(a + b, rest)
  {
    if rest.Ok? {
      assert a + (b + rest.value) == (a + b) + rest.value;
    }
  }

  /** `build_resources()` for class `c` with path chain `chain`. */
  function ClassResources(c: PyObj, records: map<ObjId, Record>, chain: seq<Record>): Result<seq<Resource>>
    requires c.Class?
    decreases c, 1, 0
  {
    MembersFrom(c, records, chain + OwnRecord(c, records), 0)
  }

  /** What the members `c.members[i..]` of class `c` contribute: a nested
      class its own resources, an annotated function one resource hosted by
      `c`, anything else nothing. */
  function MembersFrom(c: PyObj, records: map<ObjId, Record>, chain: seq<Record>, i: nat): Result<seq<Resource>>
    requires c.Class? && i <= |c.members|
    decreases c, 0, |c.members| - i
  {
    if i == |c.members| then Ok([])
    else
      var v := c.members[i];
      var mine :- if v.Class? then ClassResources(v, records, chain)
                  else if v.Function? && v.id in records then
                    var res :- ResourceOf(v, Some(c.id), records[v.id], chain);
                    Ok([res])
                  else Ok([]);
      Prepend(mine, MembersFrom(c, records, chain, i + 1))
  }

  /** `ResourceBuilder(o, chain).build()` */
  function BuildOf(o: PyObj, records: map<ObjId, Record>, chain: seq<Record>): Result<seq<Resource>> {
    if o.Class? then ClassResources(o, records, chain)
    else if o.Function? && o.id in records then
      var res :- ResourceOf(o, None, records[o.id], chain);
      Ok([res])
    else Ok([])
  }

  /** A builder: the object it builds, the records of annotated objects, and
      the path chain of the enclosing records. */
  class ResourceBuilder {
    const buildobj: PyObj
    const records: map<ObjId, Record>
    var pathChain: seq<Record>

    /** `ResourceBuilder.__init__` after its type check: a copy of `inherited`
        becomes the chain. */
    constructor (buildobj: PyObj, records: map<ObjId, Record>, inherited: seq<Record>)
      ensures this.buildobj == buildobj && this.records == records && pathChain == inherited
    {
      this.buildobj := buildobj;
      this.records := records;
      pathChain := inherited;
    }

    /** `build_resource(target, host)`: the target's record is appended to
        the chain while the path is composed and removed afterwards, so the
        chain ends as it began. */
    method BuildResource(target: PyObj, host: Option<ObjId>) returns (r: Result<Resource>)
      requires target.Function? && target.id in records
      modifies this
      ensures pathChain == old(pathChain)
      ensures r == ResourceOf(target, host, records[target.id], old(pathChain))
    {
      var rec := records[target.id];
      pathChain := pathChain + [rec];
      var path := JoinPath(pathChain);
      pathChain := pathChain[..|pathChain| - 1];
      var pattern := Compile(path);
      if pattern.Err? {
        return Err(pattern.error);
      }
      r := Ok(Resource(rec.httpMethod, path, rec.consumer, rec.producer, pattern.value,
                       target.id, host, target.args, DefaultsMap(target.args, target.defaults)));
    }

    /** `build_resource(target, host)` as written: the record is taken off
        the chain with `list.remove`, which drops the first record equal to
        it. The chain ends as it began only when no record already on it is
        equal to the target's (`RemoveLastAppended`). */
    method BuildResourceAsWritten(target: PyObj, host: Option<ObjId>) returns (r: Result<Resource>)
      requires target.Function? && target.id in records
      modifies this
      ensures pathChain == RemoveFirst(old(pathChain) + [records[target.id]], records[target.id])
      ensures records[target.id] !in old(pathChain) ==> pathChain == old(pathChain)
      ensures r == ResourceOf(target, host, records[target.id], old(pathChain))
    {
      var rec := records[target.id];
      pathChain := pathChain + [rec];
      var path := JoinPath(pathChain);
      pathChain := RemoveFirst(pathChain, rec);
      if rec !in old(pathChain) {
        RemoveLastAppended(old(pathChain), rec);
      }
      var pattern := Compile(path);
      if pattern.Err? {
        return Err(pattern.error);
      }
      r := Ok(Resource(rec.httpMethod, path, rec.consumer, rec.producer, pattern.value,
                       target.id, host, target.args, DefaultsMap(target.args, target.defaults)));
    }

    /** `build_resources()`: the class's own record joins the chain (and
        stays there), then each member is built in order; a nested class
        gets a builder with a copy of the chain, so nothing it does reaches
        the chain its siblings see. */
    method BuildResources() returns (r: Result<seq<Resource>>)
      requires buildobj.Class?
      modifies this
      ensures pathChain == old(pathChain) + OwnRecord(buildobj, records)
      ensures r == ClassResources(buildobj, records, old(pathChain))
      decreases buildobj
    {
      var resources := [];
      if buildobj.id in records {
        pathChain := pathChain + [records[buildobj.id]];
      } else {
        assert pathChain == pathChain + [];
      }
      ghost var chain := pathChain;
      PrependNothing(MembersFrom(buildobj, records, chain, 0));
      var members := buildobj.members;
      for i := 0 to |members|
        invariant pathChain == chain
        invariant ClassResources(buildobj, records, old(pathChain)) == Prepend(resources, MembersFrom(buildobj, records, chain, i))
      {
        var v := members[i];
        ghost var rest := MembersFrom(buildobj, records, chain, i + 1);
        if v.Class? {
          var nested := new ResourceBuilder(v, records, pathChain);
          var more := nested.BuildResources();
          if more.Err? {
            return more;
          }
          assert MembersFrom(buildobj, records, chain, i) == Prepend(more.value, rest);
          PrependTwice(resources, more.value, rest);
          resources := resources + more.value;
        } else if v.Function? && v.id in records {
          var res := BuildResource(v, Some(buildobj.id));
          if res.Err? {
            return Err(res.error);
          }
          assert MembersFrom(buildobj, records, chain, i) == Prepend([res.value], rest);
          PrependTwice(resources, [res.value], rest);
          resources := resources + [res.value];
        } else {
          assert MembersFrom(buildobj, records, chain, i) == Prepend([], rest);
          PrependNothing(rest);
        }
      }
      assert resources + [] == resources;
      r := Ok(resources);
    }

    /** `build()`: a class builds its members, an annotated function builds
        itself (with no host), anything else builds nothing. */
    method Build() returns (r: Result<seq<Resource>>)
      modifies this
      ensures r == BuildOf(buildobj, records, old(pathChain))
    {
      if buildobj.Class? {
        r := BuildResources();
      } else if buildobj.Function? && buildobj.id in records {
        var res := BuildResource(buildobj, None);
        if res.Err? {
          return Err(res.error);
        }
        r := Ok([res.value]);
      } else {
        r := Ok([]);
      }
    }
  }

  /** `ResourceBuilder(buildobj, inherited)`: only a class or a function can
      be built. */
  method NewBuilder(buildobj: PyObj, records: map<ObjId, Record>, inherited: seq<Record>)
    returns (r: Result<ResourceBuilder>)
    ensures !IsClassOrFunction(buildobj) <==> r.Err?
    ensures r.Err? ==> r.error == TypeError
    ensures r.Ok? ==> fresh(r.value) && r.value.buildobj == buildobj
                      && r.value.records == records && r.value.pathChain == inherited
  {
    if !IsClassOrFunction(buildobj) {
      return Err(TypeError);
    }
    var b := new ResourceBuilder(buildobj, records, inherited);
    r := Ok(b);
  }

  /** The annotated classes and functions that are direct members of the
      classes in `items`, class by class. */
  function Nested(classes: seq<PyObj>, records: map<ObjId, Record>): seq<PyObj>
    decreases |classes|
  {
    if classes == [] then []
    else
      var c := classes[|classes| - 1];
      Nested(classes[..|classes| - 1], records) + AnnotatedMembers(MembersOf(c), records)
  }

  /** `vars(c).values()` for a class. */
  function MembersOf(c: PyObj): seq<PyObj> {
    if c.Class? then c.members else []
  }

  /** `[v for v in vars(c).values() if isinstance(v, (type, FunctionType))]`,
      keeping those with a record. */
  function AnnotatedMembers(members: seq<PyObj>, records: map<ObjId, Record>): seq<PyObj>
    decreases |members|
  {
    if members == [] then []
    else
      var v := members[|members| - 1];
      AnnotatedMembers(members[..|members| - 1], records)
      + (if IsClassOrFunction(v) && v.id in records then [v] else [])
  }

  lemma {:induction false} AnnotatedMembersSpec(members: seq<PyObj>, records: map<ObjId, Record>, o: PyObj)
    ensures o in AnnotatedMembers(members, records) <==> o in members && IsClassOrFunction(o) && o.id in records
    decreases |members|
  {
    if members != [] {
      var init := members[..|members| - 1];
      AnnotatedMembersSpec(init, records, o);
      assert members == init + [members[|members| - 1]];
    }
  }

  lemma {:induction false} NestedSpec(classes: seq<PyObj>, records: map<ObjId, Record>, o: PyObj)
    ensures o in Nested(classes, records) <==>
              exists c :: c in classes && o in MembersOf(c) && IsClassOrFunction(o) && o.id in records
    decreases |classes|
  {
    if classes != [] {
      var init := classes[..|classes| - 1];
      var c := classes[|classes| - 1];
      NestedSpec(init, records, o);
      AnnotatedMembersSpec(MembersOf(c), records, o);
      assert classes == init + [c];
    }
  }

  /** One more class adds its annotated members. */
  lemma NestedSnoc(classes: seq<PyObj>, i: nat, records: map<ObjId, Record>)
    requires i < |classes|
    ensures Nested(classes[..i + 1], records) == Nested(classes[..i], records) + AnnotatedMembers(MembersOf(classes[i]), records)
  {
    assert classes[..i + 1][..i] == classes[..i];
  }

  /** The classes among the inputs. */
  function Classes(items: seq<PyObj>): (r: seq<PyObj>)
    ensures forall i :: 0 <= i < |r| ==> r[i].Class?
    decreases |items|
  {
    if items == [] then []
    else Classes(items[..|items| - 1]) + (if items[|items| - 1].Class? then [items[|items| - 1]] else [])
  }

  lemma {:induction false} ClassesSpec(items: seq<PyObj>, c: PyObj)
    ensures c in Classes(items) <==> c in items && c.Class?
    decreases |items|
  {
    if items != [] {
      var init := items[..|items| - 1];
      ClassesSpec(init, c);
      assert items == init + [items[|items| - 1]];
    }
  }

  /** The top-level inputs of `build_all`: the distinct inputs (Python's set
      order is arbitrary; first-occurrence order is taken) without any
      annotated direct member of an input class. */
  function TopLevel(objs: seq<PyObj>, records: map<ObjId, Record>): seq<PyObj> {
    var items := Distinct(objs);
    Exclude(items, Nested(Classes(items), records))
  }

  /** What `sum(map(lambda r: ResourceBuilder(r).build(), items[i:]), [])`
      gives; an input that is neither class nor function raises TypeError. */
  function BuildEach(items: seq<PyObj>, records: map<ObjId, Record>, i: nat): Result<seq<Resource>>
    requires i <= |items|
    decreases |items| - i
  {
    if i == |items| then Ok([])
    else
      var mine :- if IsClassOrFunction(items[i]) then BuildOf(items[i], records, []) else Err(TypeError);
      Prepend(mine, BuildEach(items, records, i + 1))
  }

  function BuildAllOf(objs: seq<PyObj>, records: map<ObjId, Record>): Result<seq<Resource>> {
    BuildEach(TopLevel(objs, records), records, 0)
  }

  /** The inner loop of `build_all`'s first half: every annotated class or
      function among `members` is discarded from `items`, which are the
      inputs `all` without `before`. */
  method DiscardMembers(ghost all: seq<PyObj>, ghost before: seq<PyObj>, items: seq<PyObj>,
                        members: seq<PyObj>, records: map<ObjId, Record>) returns (r: seq<PyObj>)
    requires items == Exclude(all, before)
    ensures r == Exclude(all, before + AnnotatedMembers(members, records))
  {
    r := items;
    assert before + AnnotatedMembers(members[..0], records) == before;
    for j := 0 to |members|
      invariant r == Exclude(all, before + AnnotatedMembers(members[..j], records))
    {
      assert members[..j + 1][..j] == members[..j];
      var v := members[j];
      ghost var done := AnnotatedMembers(members[..j], records);
      if IsClassOrFunction(v) && v.id in records {
        ExcludeMore(all, before + done, v);
        r := Exclude(r, [v]);
        assert before + done + [v] == before + AnnotatedMembers(members[..j + 1], records);
      } else {
        assert AnnotatedMembers(members[..j + 1], records) == done + [];
        assert done + [] == done;
      }
    }
    assert members[..|members|] == members;
  }

  /** The first half of `build_all`: the set of inputs, from which every
      annotated class or function found among the members of an input class
      is discarded. */
  method DiscardNested(objs: seq<PyObj>, records: map<ObjId, Record>) returns (items: seq<PyObj>)
    ensures items == TopLevel(objs, records)
  {
    items := Distinct(objs);
    var classes := Classes(items);
    ExcludeNone(items);
    for i := 0 to |classes|
      invariant items == Exclude(Distinct(objs), Nested(classes[..i], records))
    {
      NestedSnoc(classes, i, records);
      items := DiscardMembers(Distinct(objs), Nested(classes[..i], records), items, MembersOf(classes[i]), records);
    }
    assert classes[..|classes|] == classes;
  }

  /** `build_all(resources)`: discard the annotated members of input classes
      from the set of inputs, then concatenate what each remaining input
      builds. */
  method BuildAll(objs: seq<PyObj>, records: map<ObjId, Record>) returns (r: Result<seq<Resource>>)
    ensures r == BuildAllOf(objs, records)
  {
    var items := DiscardNested(objs, records);
    var resources := [];
    PrependNothing(BuildEach(items, records, 0));
    for i := 0 to |items|
      invariant BuildAllOf(objs, records) == Prepend(resources, BuildEach(items, records, i))
    {
      var b := NewBuilder(items[i], records, []);
      if b.Err? {
        return Err(b.error);
      }
      var more := b.value.Build();
      if more.Err? {
        return more;
      }
      ghost var rest := BuildEach(items, records, i + 1);
      assert BuildEach(items, records, i) == Prepend(more.value, rest);
      PrependTwice(resources, more.value, rest);
      resources := resources + more.value;
    }
    assert resources + [] == resources;
    r := Ok(resources);
  }

  /** An input is built at the top level exactly when it is an input and not
      an annotated direct member of an input class. */
  lemma TopLevelMembers(objs: seq<PyObj>, records: map<ObjId, Record>, o: PyObj)
    ensures o in TopLevel(objs, records) <==>
              o in objs && !exists c :: c in objs && c.Class? && o in MembersOf(c) && IsClassOrFunction(o) && o.id in records
  {
    var items := Distinct(objs);
    DistinctSpec(objs);
    ExcludeMembers(items, Nested(Classes(items), records), o);
    NestedSpec(Classes(items), records, o);
    forall c ensures c in Classes(items) <==> c in objs && c.Class? {
      ClassesSpec(items, c);
    }
  }

  /** An annotated function built on its own gives exactly one resource, with
      no host, for that function. */
  lemma BareFunction(f: PyObj, records: map<ObjId, Record>)
    requires f.Function? && f.id in records
    ensures BuildOf(f, records, []).Ok? ==>
              |BuildOf(f, records, []).value| == 1
              && BuildOf(f, records, []).value[0].host == None
              && BuildOf(f, records, []).value[0].target == f.id
    ensures BuildOf(f, records, []).Err? <==> Compile(PathOf([records[f.id]])).Err?
  {
    assert [] + [records[f.id]] == [records[f.id]];
  }

  /** A resource's method, consumer and producer are those of the handler's
      own record; its path is composed from the chain and that record, and
      its pattern is that path compiled. */
  lemma ResourceFields(target: PyObj, host: Option<ObjId>, rec: Record, chain: seq<Record>)
    requires target.Function? && ResourceOf(target, host, rec, chain).Ok?
    ensures var res := ResourceOf(target, host, rec, chain).value;
            && res.httpMethod == rec.httpMethod && res.consumer == rec.consumer && res.producer == rec.producer
            && res.host == host && res.target == target.id
            && res.path == PathOf(chain + [rec])
            && Compile(res.path) == Ok(res.pattern)
  {
  }

  /** `list.remove(x)` as `build_resource` uses it: drops the first element
      equal to `x` (records are dicts, so equality is by content). */
  function RemoveFirst(chain: seq<Record>, x: Record): seq<Record>
    decreases |chain|
  {
    if chain == [] then []
    else if chain[0] == x then chain[1..]
    else [chain[0]] + RemoveFirst(chain[1..], x)
  }

  /** The loop of `build_resource` that composes the path of a chain. */
  method JoinPath(chain: seq<Record>) returns (path: string)
    ensures path == PathOf(chain)
  {
    path := "/";
    for i := 0 to |chain|
      invariant path == PathOf(chain[..i])
    {
      assert chain[..i + 1][..i] == chain[..i];
      if HasPath(chain[i]) {
        path := RStrip(path, Slash) + "/" + StripChars(chain[i].path.value, Slash);
      }
    }
    assert chain[..|chain|] == chain;
  }

  /** Removing a record appended to a chain that does not hold it gives the
      chain back. */
  lemma {:induction false} RemoveLastAppended(chain: seq<Record>, x: Record)
    requires x !in chain
    ensures RemoveFirst(chain + [x], x) == chain
    decreases |chain|
  {
    if chain != [] {
      assert (chain + [x])[1..] == chain[1..] + [x];
      RemoveLastAppended(chain[1..], x);
    }
  }

  /** As written, removing the target's record after composing its path
      drops an enclosing class's record instead when it has the same
      content: for a class at `x` holding a class at `y` with a handler at
      `x`, the chain becomes `y, x` where it was `x, y`. */
  lemma RemoveFirstReorders()
    ensures RemoveFirst([ClassX(), ClassY(), ClassX()], ClassX()) == [ClassY(), ClassX()]
  {
  }

  /** A class or handler annotated with `path(p)` only. */
  function PathRecord(p: string): Record {
    Record(None, Some(p), None, None)
  }

  function ClassX(): Record { PathRecord("/x") }
  function ClassY(): Record { PathRecord("/y") }
  function HandlerZ(): Record { PathRecord("/z") }

  lemma StripSegment(c: char)
    requires c != '/'
    ensures StripChars(['/', c], Slash) == [c]
    ensures RStrip(['/', c], Slash) == ['/', c]
  {
    StripCharsIs(['/', c], Slash, 1, 2);
    RStripIs(['/', c], "", Slash);
    assert ['/', c] + "" == ['/', c];
  }

  lemma RStripTwo(c: char, d: char)
    requires c != '/' && d != '/'
    ensures RStrip(['/', c, '/', d], Slash) == ['/', c, '/', d]
  {
    RStripIs(['/', c, '/', d], "", Slash);
    assert ['/', c, '/', d] + "" == ['/', c, '/', d];
  }

  /** With the reordered chain, the next handler at `z` gets the path
      `/y/x/z` ... */
  lemma ReorderedPath()
    ensures PathOf([ClassY(), ClassX(), HandlerZ()]) == "/y/x/z"
  {
    StripSegment('x');
    StripSegment('y');
    StripSegment('z');
    RStripTwo('y', 'x');
    assert RStrip("/", Slash) == "" by {
      assert AllIn("/", Slash);
      RStripIs("", "/", Slash);
    }
    assert [ClassY(), ClassX(), HandlerZ()][..2] == [ClassY(), ClassX()];
    assert [ClassY(), ClassX()][..1] == [ClassY()];
    assert PathOf([ClassY()]) == "/y";
    assert PathOf([ClassY(), ClassX()]) == "/y/x";
  }

  /** ... where the chain it was meant to keep gives `/x/y/z`. */
  lemma IntendedPath()
    ensures PathOf([ClassX(), ClassY(), HandlerZ()]) == "/x/y/z"
  {
    StripSegment('x');
    StripSegment('y');
    StripSegment('z');
    RStripTwo('x', 'y');
    assert RStrip("/", Slash) == "" by {
      assert AllIn("/", Slash);
      RStripIs("", "/", Slash);
    }
    assert [ClassX(), ClassY(), HandlerZ()][..2] == [ClassX(), ClassY()];
    assert [ClassX(), ClassY()][..1] == [ClassX()];
    assert PathOf([ClassX()]) == "/x";
    assert PathOf([ClassX(), ClassY()]) == "/x/y";
  }
}
