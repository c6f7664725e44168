# rs routing core, modelled in Dafny

`rs` is a small Python REST framework:
- decorators (`@path`, `@get`, `@produces`, `@consumes`, ...) annotate classes and functions;
- `build_all` turns the annotated objects into *resources*, each with a method, a composed path, a compiled path pattern and its media declarations;
- `dispatch` picks the resource for a request;
- a `Context` binds the handler's arguments and shapes its result into a response.

This project models that core and proves what each step promises:
- which annotation wins;
- how paths are composed and compiled;
- which resource the four dispatch stages and the ranking select, and with which parameters;
- how each error status arises;
- how arguments are bound;
- what response is built.

| file | module | models |
|---|---|---|
| base.dfy | `Base` | `Option`, `Result`, the raised errors (`Error(status)` with headers, `ValueError`, `TypeError`, a pattern compile error), status codes |
| pystr.dfy | `PyStr` | the `str` builtins the core uses: `strip`, `rstrip`, `split`, `find`, `lower`, `replace`, `str(int)` |
| lists.dfy | `Lists` | `set(...)` de-duplication and `discard` |
| objects.dfy | `Objects` | Python objects as values: classes with their `vars()`, functions with their argument lists, argument values and truthiness |
| sorting.dfy | `Sorting` | `sorted(key=..., reverse=True)` on three-part tuple keys: a stable sort |
| core.py → core.dfy | `Annotations` | `RestDict`, the decorators, the registry |
| rs/message.py → message.dfy | `Messages` | `parse_header`, `parse_media`, `parse_accept`, `combine_header`, `set_headers`, `set_entity`, and the `Response` fields they write |
| resource.py → pattern.dfy | `PathPatterns` | the `{name}` placeholders of a path, its compiled regular expression and the match |
| resource.py → resource.dfy | `Resources` | `Resource`, `ResourceBuilder`, `build_all` |
| rs/request.py → request.dfy | `Requests` | `RequestDispatcher` with its four stages, ranking and parameter extraction |
| context.py → context.dfy | `Contexts` | `alias`, `get_target_params`, `application_property`, `make_response`, `get_response` |

## Conventions

Several Python values are given a concrete representation:
- A quality value `q` is kept as integer thousandths: `0.5` is 500.
- A path pattern is a sequence of literal characters and named groups. `re.match` becomes a greedy, backtracking matcher over it.
- A Python set is taken in first-occurrence order.
- Handlers, producers and the dispatcher's callers are passed in as functions.

Two details of the code that the model keeps as they are:
- `build_all` joins the lists the builders return with `sum(..., [])` (resource.py:130-133), so a target built twice appears twice.
- `parse_header` strips each parameter as a whole before splitting it at `=` (rs/message.py:54-56), so `a = b` yields the key `a ` and the value ` b`.

## Model

| member | source | states |
|---|---|---|
| Annotations.Attr | core.py:35 | reading an attribute of a `RestDict` gives None exactly when it was never set, and its value otherwise |
| Annotations.NormalizePath | core.py:68 | the stored path starts with `/`, holds no backslash, neither starts nor ends with another slash, and is one longer than the pattern stripped of slashes and backslashes |
| Annotations.NormalizeStored | core.py:65-69 | a path in stored form is its own normal form |
| Annotations.NormalizePathIdempotent | core.py:65-69 | applying `@path` to a stored path changes nothing |
| Annotations.Write | core.py:36 | assignment is `setdefault`: a decorator writes only its own attribute, and only when that attribute is unset (method name, normalised path, lower-cased media with its converter) |
| Annotations.FirstWriteWins | core.py:58-83 | after any series of decorators each attribute holds its old value, or else the value of the first decorator that writes it |
| Annotations.Registry.constructor | core.py:20 | the registry starts empty |
| Annotations.Registry.Annotate | core.py:39-55 | anything but a class or function raises TypeError and changes nothing; otherwise the target is registered, its record is created on first use and written, and the target is returned |
| Sorting.SortDesc | rs/request.py:48-53 | `sorted(..., reverse=True)` is a permutation of its input in non-increasing key order |
| Sorting.SortDescStable | rs/request.py:48-53 | elements of equal key keep their input order |
| Sorting.SortDescHead | rs/request.py:48-54 | the first of the sorted list is the earliest input element of maximal key |
| Lists.DistinctSpec | resource.py:121 | `set(resources)` keeps every input and repeats none |
| Lists.DistinctNoop | resource.py:121 | inputs without repeats are kept as they are |
| Lists.ExcludeMembers | resource.py:128 | after the discards an object is present exactly when it was an input and was not discarded |
| Lists.ExcludeMore | resource.py:128 | discarding one more object is excluding it as well |
| PyStr.StripChars | core.py:68 | `strip(chars)` leaves a slice that neither starts nor ends with one of the characters |
| PyStr.StripKeeps | core.py:68 | a character outside the stripped set survives `strip` at its offset |
| PyStr.Split | rs/message.py:54 | `split(c)` gives at least one part, no part contains `c`, and the parts joined by `c` give the text back |
| PyStr.SplitJoin | rs/message.py:54 | splitting a join of parts without `c` gives the parts back |
| PyStr.SplitOnce | rs/message.py:53 | `split(c, 1)` cuts at the first `c`, and finds none exactly when `c` is absent |
| PyStr.Lower | core.py:75 | `lower()` on ASCII text: keeps the length, maps each upper-case ASCII letter to its lower case and keeps every other character |
| PyStr.ReplaceChar | core.py:68 | `replace` of one character changes exactly its occurrences |
| PyStr.Decimal | rs/message.py:48 | `str(n)` is digits without a leading zero |
| PyStr.DecimalRoundTrip | rs/message.py:48 | reading `str(n)` back gives `n` |
| Messages.FromPairsKeys | rs/message.py:57 | the keys of `RestDict(pairs)` are the keys of the pairs |
| Messages.FromPairsLast | rs/message.py:57 | the last pair with a key decides its value |
| Messages.HeaderPairsLookup | rs/message.py:55-57 | `value` and `header` keep their own value unless a parameter of that name follows; each parameter key holds its last value |
| Messages.ParseHeaderResult | rs/message.py:52-57 | `parse_header` fails, with ValueError, exactly when a parameter has no `=`; otherwise the result holds `value` and `header` |
| Messages.HeaderSplitHead | rs/message.py:53-55 | the value kept is the text before the first `;`, stripped |
| Messages.ParseHeaderFields | rs/message.py:52-57 | key by key: `value` is the stripped text before the first `;`, `header` the header itself, each parameter its last value, and no other key |
| Messages.ParseHeaderPlain | rs/message.py:53-57 | a header without `;` parses to exactly its stripped value and itself |
| Messages.ParsedValueHasNoSemicolon | rs/message.py:53-56 | no `value` that `parse_header` produces contains `;` |
| Messages.MediaFields | rs/message.py:62 | `parse_media` adds `type`, and adds `subtype` only when the value holds a `/` |
| Messages.ParseMediaResult | rs/message.py:60-63 | `parse_media` fails, with ValueError, exactly when `parse_header` fails |
| Messages.ParseMediaKeeps | rs/message.py:60-63 | every header field other than `type` and `subtype` is kept, and `type` is always set |
| Messages.ParseMediaSubtype | rs/message.py:62 | `subtype` is present exactly when the value holds a `/` or a parameter supplies it |
| Messages.MediaTypeSubtype | rs/message.py:62 | `type` is the value up to its first `/`, and `subtype` the part after it, up to a second `/` |
| Messages.ParseQText | rs/message.py:68 | `float(q)` of the rendered quality value reads it back |
| Messages.ParseAcceptOrder | rs/message.py:66-70 | `parse_accept` fails, with ValueError, exactly when an entry does not parse or has a non-numeric q; otherwise it returns all entries, by non-increasing `(q, len(value), len(params))` |
| Messages.ParseAcceptStable | rs/message.py:70 | entries of equal rank keep their order in the header |
| Messages.CombineHeader | rs/message.py:73-74 | `combine_header` starts with the value and is the value when there are no parameters |
| Messages.ItemKeyValue | rs/message.py:74 | a `key=value` item written by `combine_header` splits back into its key and value |
| Messages.ParseCombinedHeader | rs/message.py:73-74 | `parse_header` of a combined header gives back the stripped value, the header itself and each parameter |
| Messages.CharsetHeader | rs/message.py:44-47 | a value combined with the default charset parses back to that value and that charset |
| Messages.LoweredStep | rs/message.py:36-37 | one more header item is stored under its lower-cased name |
| Messages.SetHeaders | rs/message.py:34-37 | every header is stored under its lower-cased name, later ones winning; status and entity are unchanged |
| Messages.MediaOrDefault | rs/message.py:43 | `media or default`: a non-empty media type is kept, and an empty or missing one gives the corrected default `application/octet-stream` |
| Messages.WriteEntity | rs/message.py:42-49 | with an entity: content type, decimal length and the entity are written; a media type that did not parse writes nothing; without an entity nothing changes |
| Messages.SetEntity | rs/message.py:40-49 | `set_entity` with the corrected fallback media type: ValueError before any write on an unparsable media type, else the writes above |
| Messages.ContentTypeDeclaresCharset | rs/message.py:44-47 | without a charset of its own the written content type declares the default one and keeps the media value |
| Messages.DefaultMediaAsWrittenLacksSubtype | rs/message.py:43 | the fallback media type as written parses with no `subtype`, its whole text as `type` |
| Messages.DefaultContentTypeAsWritten | rs/message.py:43-49 | an entity with no media type is sent as `application\octet-stream;charset=utf-8` as written, and as `application/octet-stream;charset=utf-8` with the corrected fallback |
| Messages.DefaultMediaTypeSubtype | rs/message.py:43 | the intended fallback parses to type `application`, subtype `octet-stream` |
| PathPatterns.Placeholder | resource.py:100-102 | a found placeholder fits in the text |
| PathPatterns.PlaceholderShape | resource.py:100-102 | a placeholder is `{`, a non-empty name without newline or inner `}`, then `}` |
| PathPatterns.RenderScan | resource.py:98-106 | replacing each placeholder by a group loses no text: rendering the tokens gives the path back |
| PathPatterns.RenderStrip | resource.py:108 | stripping slash tokens is `strip('/')` of the text |
| PathPatterns.StripKeepsNames | resource.py:108 | stripping the outer slashes keeps every group |
| PathPatterns.CompileText | resource.py:98-108 | the compiled pattern is the slash-stripped path with one group per placeholder |
| PathPatterns.CompileErrors | resource.py:108 | compiling fails with a pattern error only; a compiled pattern has distinct, identifier-named groups |
| PathPatterns.GreedySound | rs/request.py:65 | the group values found make the pattern spell the path |
| PathPatterns.GreedyComplete | rs/request.py:65 | every path the pattern can spell is matched |
| PathPatterns.GreedyLongest | rs/request.py:65 | the first group takes the longest value under which the rest still matches |
| PathPatterns.CompiledMatches | resource.py:108 | the compiled pattern of a path matches a text exactly when the text is the stripped path with its placeholders filled |
| PathPatterns.GroupDictLookup | rs/request.py:126-127 | `groupdict()` maps each group name to its own value and holds nothing else |
| Resources.PathShape | resource.py:85-93 | the path loop yields `/`, the non-empty segments joined by `/`, and at most one more `/` |
| Resources.ComposedPath | resource.py:84-93 | a composed path starts with `/`; stripped, it is the chain's segments joined by `/`, and `/` when no record has a path |
| Resources.DefaultsPairing | resource.py:113-116 | each of the last arguments maps to its default, in order, and nothing else is in the map |
| Resources.ResourceBuilder.constructor | resource.py:45-53 | the chain starts as a copy of the inherited chain |
| Resources.NewBuilder | resource.py:45-49 | only a class or a function gets a builder; anything else raises TypeError |
| Resources.ResourceBuilder.BuildResource | resource.py:77-118 | the resource built from the chain and the target's record; with the corrected removal the chain ends as it began |
| Resources.ResourceBuilder.BuildResourceAsWritten | resource.py:77-118 | the same resource; the chain ends as `list.remove` leaves it, which is the chain it began as when no record on it equals the target's |
| Resources.JoinPath | resource.py:87-92 | the loop over the chain composes the path of the whole chain |
| Resources.RemoveLastAppended | resource.py:94 | `list.remove` of a record appended to a chain that does not hold it gives the chain back |
| Resources.ResourceBuilder.BuildResources | resource.py:62-75 | the class's own record joins the chain, and the members are built in order, nested classes on a copy of the chain |
| Resources.ResourceBuilder.Build | resource.py:55-60 | a class builds its members, an annotated function builds itself with no host, anything else builds nothing |
| Resources.ResourceFields | resource.py:78-116 | method, consumer and producer come from the handler's own record; the path comes from the chain plus that record, and the pattern is that path compiled |
| Resources.BareFunction | resource.py:58-59 | an annotated function alone builds one resource, with no host, or fails exactly when its path does not compile |
| Resources.DiscardMembers | resource.py:125-128 | the inner discard loop removes each annotated class or function among the members |
| Resources.DiscardNested | resource.py:121-128 | the first half of `build_all` leaves the top-level inputs |
| Resources.TopLevelMembers | resource.py:123-128 | an input stays exactly when it is not an annotated direct member of an input class |
| Resources.BuildAll | resource.py:120-133 | `build_all` is the concatenation of what each top-level input builds, in order; the first failure ends it |
| Resources.RemoveFirstReorders | resource.py:94 | as written, `list.remove` drops an equal enclosing record rather than the one just appended |
| Resources.ReorderedPath | resource.py:87-94 | as written, a later sibling then gets the path `/y/x/z` |
| Resources.IntendedPath | resource.py:87-94 | the intended chain gives `/x/y/z` |
| Requests.WildLiteral | rs/request.py:91-92 | without `*` a media pattern matches exactly the values it is a prefix of (`re.match` is not anchored at the end) |
| Requests.WildSkip | rs/request.py:91-92 | `*` (turned into `.*`) absorbs any text without a newline |
| Requests.GroupQueryLookup | rs/request.py:129-132 | a query key given once maps to its value, and a repeated key maps to the list of its values |
| Requests.GroupQueryKeys | rs/request.py:130-132 | only keys that occur are present |
| Requests.FormGate | rs/request.py:134-139 | form parameters come from the body exactly for a POST whose content type is the form type in any case |
| Requests.FormNeedsContentType | rs/request.py:134-139 | without a content type there are no form parameters |
| Requests.ResolvePathOf | rs/request.py:62-71 | a successful path stage leaves at least one resource |
| Requests.PathMatchesMembers | rs/request.py:64-68 | the path stage keeps exactly the resources whose pattern matches the stripped path |
| Requests.PathMatchMeaning | rs/request.py:65 | a pattern matches exactly when some group values spell the stripped path, and the recorded captures are such values |
| Requests.ResolvePathErrors | rs/request.py:69-70 | NOT_FOUND exactly when nothing matches |
| Requests.RequestDispatcher.ResolvePath | rs/request.py:62-71 | the loop returns the matching resources and records each match in `m_key` |
| Requests.ResolveMethod | rs/request.py:73-81 | a successful method stage leaves at least one resource |
| Requests.MethodMatchesMembers | rs/request.py:74 | the stage keeps exactly the candidates with the request's method |
| Requests.MethodNotAllowed | rs/request.py:75-80 | with no candidate left: METHOD_NOT_ALLOWED with `allow` listing each method once, or TypeError when some candidate has no method |
| Requests.AllowHeaderFails | rs/request.py:77-79 | the join fails, with TypeError, exactly when a method is None |
| Requests.AllowHeaderLists | rs/request.py:77-79 | otherwise it lists every method once, joined by `, ` |
| Requests.ResolveMedia | rs/request.py:83-99 | a successful media stage never leaves an empty candidate list |
| Requests.MediaMatchesMembers | rs/request.py:87-96 | the comprehension keeps exactly the candidates that accept the media, and fails, with ValueError, exactly when some media type does not parse |
| Requests.ResolveMediaMeaning | rs/request.py:83-99 | without a content type every candidate passes; otherwise the stage keeps those that accept the media; its errors are UNSUPPORTED_MEDIA_TYPE or ValueError |
| Requests.NoConsumerTakesAll | rs/request.py:93-94 | a resource without a consumer accepts any media |
| Requests.FirstQMeaning | rs/request.py:109-113 | the first matching Accept entry gives the q, and no match gives None |
| Requests.AcceptMatchesMembers | rs/request.py:116-121 | the loop keeps exactly the resources with a non-zero q, and fails exactly when some q cannot be computed |
| Requests.QForErrors | rs/request.py:105-115 | every failure to compute a q is a ValueError |
| Requests.NoProducerAcceptsAll | rs/request.py:114-115 | a resource without a producer gets q = 1.0 |
| Requests.ResolveAcceptOf | rs/request.py:101-124 | a successful accept stage leaves at least one resource |
| Requests.RequestDispatcher.ResolveAccept | rs/request.py:101-124 | the loop returns the acceptable resources and, on success, records each q in `q_key` |
| Requests.Stages | rs/request.py:42-47 | the four stages leave at least one candidate |
| Requests.StagesFilter | rs/request.py:42-47 | each stage only filters: a candidate left is in the table, matches the path and has the method |
| Requests.RequestDispatcher.RunStages | rs/request.py:42-47 | the stage calls leave the candidates, the q keys and the matches |
| Requests.DispatchWinner | rs/request.py:39-58 | the winner is a table resource that matches the path and has the request's method |
| Requests.DispatchBest | rs/request.py:48-54 | the winner has the greatest `(q, groups or maxsize, len(path))` among the candidates, and no earlier candidate has the same key |
| Requests.LiteralOutranks | rs/request.py:50-52 | at equal q a path without groups (`maxsize`) outranks one with groups |
| Requests.DispatchParams | rs/request.py:55-57 | path parameters are the winner's captures by name, and those captures spell the path; query and form parameters are the grouped query and the form |
| Requests.PathParamsNames | rs/request.py:126-127 | the path parameters hold exactly the placeholder names, each bound to its capture |
| Requests.DispatchErrors | rs/request.py:39-60 | NOT_FOUND exactly when no resource matches the path; every other failure is one of the stages' statuses, ValueError or TypeError |
| Requests.RequestDispatcher.constructor | rs/request.py:32-37 | the dispatcher holds the table, with empty `q_key`, `m_key` and params |
| Requests.RequestDispatcher.Choose | rs/request.py:48-58 | the ranking, the winner and its parameters are those of the dispatch function |
| Requests.RequestDispatcher.DispatchStages | rs/request.py:41-58 | the body of the `try` computes the dispatch result |
| Requests.RequestDispatcher.Dispatch | rs/request.py:39-60 | returns the dispatch result, and whether it returns or raises, the dispatcher is back to its initial state with its table |
| Requests.DispatchTable | rs/request.py:142-143 | `dispatch(resources, request)` on a fresh dispatcher |
| Contexts.AliasInMeaning | context.py:133-135 | within one dictionary the first alias present gives the value; none present gives None |
| Contexts.AliasOrder | context.py:128-138 | path beats query beats form, whatever the alias order; with no alias anywhere the result is the default, or ValueError without one |
| Contexts.Alias | context.py:128-138 | the nested loops with early return compute that value |
| Contexts.BindPrecedence | context.py:94-107 | the host instance comes first for argument 0, then a context-property default, then path, query and form, then the declared default, else BAD_REQUEST |
| Contexts.BindArgErrors | context.py:96-109 | a failure to bind an argument is BAD_REQUEST, or an exception other than ValueError that the consumer raised, passed through |
| Contexts.EntityArgument | context.py:96-118 | an `entity` default binds the consumed entity; a consumer's ValueError becomes BAD_REQUEST and any other exception passes through |
| Contexts.AliasMissIsBadRequest | context.py:108-109 | an `alias` default that finds nothing and has no default turns its ValueError into BAD_REQUEST |
| Contexts.BindFirstMeaning | context.py:91-109 | one binding per argument, in order, each to its source's value; binding fails exactly when some argument fails, with the first failing argument's error, which is BAD_REQUEST unless the consumer raised something other than ValueError |
| Contexts.BindFirstFails | context.py:92-109 | the first failing argument ends the generator, and its error is the result |
| Contexts.GetTargetParams | context.py:91-109 | the loop over the arguments computes that binding |
| Contexts.PropertyFalsy | context.py:17-18 | a `context_property` object is falsy |
| Contexts.ApplicationProperty.constructor | context.py:32-34 | the cache starts empty |
| Contexts.ApplicationProperty.Get | context.py:36-41 | a cached context gets its cached value with the cache unchanged; otherwise `fget` is called once and its value cached |
| Contexts.ApplicationProperty.Delete | context.py:43-45 | only that context's entry is removed |
| Contexts.MakeResponseErrors | context.py:81-89 | `make_response` fails, with ValueError, exactly when there is an entity and the producer's media type does not parse |
| Contexts.MakeResponseFields | context.py:81-89 | status as given (OK when none or 0), the produced entity, only the handler's headers when there is no entity, and the handler's headers always win |
| Contexts.ContentLengthReads | context.py:87 | the written content length reads back as the entity's length |
| Contexts.MakeResponse | context.py:81-89 | builds a fresh response holding those fields |
| Contexts.GetResponse | context.py:68-78 | a binding failure is raised before the call; then None gives NO_CONTENT, a tuple or a plain value goes through `make_response`, and a response is returned as it is |

## Left out

- Regular-expression metacharacters other than `*` in media types, and in the literal text of paths: they are matched as literal characters. A `.` in a path or in a media value therefore matches only itself here, not any character.
- Newlines in request paths: `*` in a media type does not cross a newline here, as `.*` does not, but a path group (`.+`) may take one, and `$` matching just before a final newline is not modelled.
- Non-ASCII placeholder names: only ASCII identifiers count as valid group names.
- Messages.ParseQ: reads q as thousandths with at most three decimals; floats with more decimals, exponents, `inf` or `nan` are a ValueError here, so Python's float rounding and special values are not modelled.
- `parse_qs` percent-decoding and `+` handling: the query and the form body are given as already split key/value pairs.
- Reflection (`vars`, `getfullargspec`, `isinstance`): objects carry their members, argument names and defaults as data.
- Resources are values: `m_key`, `q_key` and the built list are keyed by value, not by identity, and `Resource.__hash__` is not modelled.
- Python set order: `set(resources)` and the `allow` header's set are taken in first-occurrence order; the `allow` contract is stated for any order.
- Requests.RequestDispatcher.ResolveAccept: what `q_key` holds after the stage raises is left unspecified, because the dispatcher is re-initialised anyway.
- Requests.RequestDispatcher.Dispatch: requires a dispatcher in its initial state, which is the only way the source calls it.
- Handler calls, producers, consumers, `fget` and the instances manager are opaque functions passed in. The `request` and `uri` context properties yield opaque values. The `entity` property is given as its outcome for the request, an opaque value or the exception its consumer raised. A `context_property` other than `alias`, `entity`, `request` and `uri` is not modelled. A missing instance in the instances manager is not modelled either.
- Messages.MediaOrDefault: yields the corrected `application/octet-stream` for an empty or missing media type, not the source's `application\octet-stream`. Messages.DefaultContentTypeAsWritten states what the source's text gives.
- Messages.SetEntity: with no media type it writes the corrected fallback `application/octet-stream`. The source writes `application\octet-stream`, and Messages.DefaultContentTypeAsWritten states the header that results.
- Contexts.MakeResponse: an entity without a producer media type gets the corrected fallback content type, not the backslash text the source writes.
- Contexts.GetResponse: an entity without a producer media type gets the corrected fallback content type, not the backslash text the source writes.
- Resources.ResourceBuilder.BuildResource: restores the chain by dropping the record just appended. `list.remove` as written is modelled by Resources.ResourceBuilder.BuildResourceAsWritten, which agrees only when no record on the chain equals the target's. BuildResources and BuildAll use the corrected builder.
- PyStr.Lower: ASCII only. Python's `str.lower` also lower-cases non-ASCII letters, and a few of them change length. Every `lower()` of the core is modelled by it: media types, header names and the request content type.
- Annotations.Registry.Annotate: a class has no base classes here. The model does not capture a subclass that finds an inherited `__rest_dict__` through `hasattr`/`getattr` (core.py:23-27, 50-53; resource.py:64-65). For such a subclass the source writes into the base's record, where the model creates a record of the subclass's own.
- PathPatterns.CompileErrors: every placeholder name that is not an identifier is a pattern error here. In the source, each `{name}` text is itself used as a regular expression to find the placeholder (resource.py:98-108). When that expression does not match its own text, the placeholder is left unsubstituted and compiled as part of the path's regular expression, without error. Examples are `{a+}`, `{a^}`, `{a$}` and `{a\d}`; the resulting pattern may match nothing, or other text such as `{a5}`. The model does not capture these patterns.
- A handler tuple of the wrong length: a tuple is taken as up to three named parts.
- `Context.__init__`, `__enter__` and `__exit__`: wiring to the application's managers.
- `entity()` byte decoding (rs/message.py:23-31): entities are text.
- rs/application.py, rs/response.py, rs/error.py and rs/status.py are not part of this model. Only the fields of `Response` and `Error` that the core writes, and the status codes it uses, are modelled.
- Integer widths: `maxsize` is a constant, and numbers are unbounded.

## Findings

| source | as written | input that shows it | evidently intended | confidence | as-written member | corrected member |
|---|---|---|---|---|---|---|
| resource.py:94 | `self._path_chain.remove(get_rest_dict(target))` removes the first record equal to the target's, which can be an enclosing class's record with the same content | a class at `x` holding a class at `y` holding a handler at `x` and, after it, a handler at `z`: the chain becomes `y, x`, and the second handler's path is `/y/x/z` | remove the record just appended, leaving the chain as it was, so the path is `/x/y/z` | high, not executed | Resources.ResourceBuilder.BuildResourceAsWritten, Resources.RemoveFirstReorders, Resources.ReorderedPath | Resources.ResourceBuilder.BuildResource, Resources.IntendedPath |
| rs/message.py:43 | the fallback media type is `'application\octet-stream'`; `\o` is not an escape, so the text holds a backslash and no `/` | an entity returned with no producer media: `parse_media` gives `type` = the whole text and no `subtype`, and the content type is `application\octet-stream;charset=utf-8` | `application/octet-stream` | high, not executed | Messages.DefaultMediaAsWrittenLacksSubtype, Messages.DefaultContentTypeAsWritten | Messages.DefaultMediaTypeSubtype |
