/** Message helpers (rs/message.py): parsing of header values, media types
    and Accept headers, and the writing of headers and entities onto an
    outgoing response. */
module Messages {
  import opened Base
  import opened PyStr
  import opened Sorting
  import opened Annotations

  /** A parsed header: the RestDict built from `(key, value)` pairs. */
  type Parsed = map<string, string>

  /** The default charset, `rs.core.encoding`. */
  const Encoding := "utf-8"

  /** `dict(pairs)`: every key of the pairs, a repeated key holding the value
      of its last pair. */
  function FromPairs(pairs: seq<(string, string)>): Parsed
    decreases |pairs|
  {
    if pairs == [] then map[]
    else
      var last := pairs[|pairs| - 1];
      FromPairs(pairs[..|pairs| - 1])[last.0 := last.1]
  }

  /** The keys of `dict(pairs)` are the keys of the pairs. */
  lemma {:induction false} FromPairsKeys(pairs: seq<(string, string)>)
    ensures FromPairs(pairs).Keys == set i | 0 <= i < |pairs| :: pairs[i].0
    decreases |pairs|
  {
    if pairs != [] {
      var init := pairs[..|pairs| - 1];
      FromPairsKeys(init);
      assert (set i | 0 <= i < |pairs| :: pairs[i].0)
          == (set i | 0 <= i < |init| :: init[i].0) + {pairs[|pairs| - 1].0};
    }
  }

  /** The last pair with a given key decides its value. */
  lemma {:induction false} FromPairsLast(pairs: seq<(string, string)>, i: nat)
    requires i < |pairs|
    requires forall j :: i < j < |pairs| ==> pairs[j].0 != pairs[i].0
    ensures pairs[i].0 in FromPairs(pairs) && FromPairs(pairs)[pairs[i].0] == pairs[i].1
    decreases |pairs|
  {
    if i < |pairs| - 1 {
      FromPairsLast(pairs[..|pairs| - 1], i);
    }
  }

  /** The value `dict(pairs)` holds for a key comes from a pair carrying
      that key; the index of the last such pair. */
  lemma {:induction false} FromPairsSource(pairs: seq<(string, string)>, k: string) returns (i: nat)
    requires exists j :: 0 <= j < |pairs| && pairs[j].0 == k
    ensures i < |pairs| && pairs[i].0 == k
    ensures k in FromPairs(pairs) && FromPairs(pairs)[k] == pairs[i].1
    decreases |pairs|
  {
    var last := pairs[|pairs| - 1];
    if last.0 == k {
      i := |pairs| - 1;
    } else {
      var init := pairs[..|pairs| - 1];
      var j :| 0 <= j < |pairs| && pairs[j].0 == k;
      assert init[j].0 == k;
      i := FromPairsSource(init, k);
    }
  }

  /** `p.strip().split('=', 1)` for one parameter: the key and the value,
      or None when there is no `=` (a one-element list, which `dict` rejects). */
  function KeyValue(param: string): Option<(string, string)> {
    SplitOnce(Strip(param), '=')
  }

  /** The pairs `dict` receives from the parameters; ValueError as soon as one
      of them has no `=`. */
  function ParamPairs(params: seq<string>): Result<seq<(string, string)>> {
    if forall i :: 0 <= i < |params| ==> KeyValue(params[i]).Some? then
      Ok(seq(|params|, i requires 0 <= i < |params| => KeyValue(params[i]).value))
    else
      Err(ValueError)
  }

  /** The pairs of parameters that each split at an `=`. */
  lemma ParamPairsOk(params: seq<string>, ps: seq<(string, string)>)
    requires |ps| == |params|
    requires forall i :: 0 <= i < |params| ==> KeyValue(params[i]) == Some(ps[i])
    ensures ParamPairs(params) == Ok(ps)
  {
    assert forall i :: 0 <= i < |params| ==> KeyValue(params[i]).Some?;
    var r := ParamPairs(params).value;
    assert |r| == |ps|;
    assert forall i :: 0 <= i < |r| ==> r[i] == ps[i];
    assert r == ps;
  }

  /** `header.strip().split(';', 1) if ';' in header else (header, None)` */
  function HeaderSplit(header: string): (string, Option<string>) {
    if ';' in header then
      StripKeeps(header, Whitespace, Find(header, ';').value);
      var parts := SplitOnce(Strip(header), ';').value;
      (parts.0, Some(parts.1))
    else
      (header, None)
  }

  /** `p.strip().split(';') if p else []` */
  function HeaderParams(header: string): seq<string> {
    var rest := HeaderSplit(header).1;
    if rest.Some? && rest.value != "" then Split(Strip(rest.value), ';') else []
  }

  /** The `(key, value)` pairs `parse_header` hands to `dict`: the value, the
      header, then the parameters. */
  function HeaderPairs(value: string, header: string, params: seq<(string, string)>): seq<(string, string)> {
    [("value", value), ("header", header)] + params
  }

  /** `parse_header(header)` */
  function ParseHeader(header: string): Result<Parsed> {
    var pairs :- ParamPairs(HeaderParams(header));
    Ok(FromPairs(HeaderPairs(Strip(HeaderSplit(header).0), header, pairs)))
  }

  /** `parse_header` fails, with ValueError, exactly when some parameter has
      no `=`; otherwise its result holds `value` and `header`. */
  lemma ParseHeaderResult(header: string)
    ensures ParseHeader(header).Ok? <==>
              forall i :: 0 <= i < |HeaderParams(header)| ==> '=' in Strip(HeaderParams(header)[i])
    ensures ParseHeader(header).Err? ==> ParseHeader(header).error == ValueError
    ensures ParseHeader(header).Ok? ==> "value" in ParseHeader(header).value && "header" in ParseHeader(header).value
  {
    if ParseHeader(header).Ok? {
      ParseHeaderKeys(header);
    }
  }

  lemma ParseHeaderKeys(header: string)
    requires ParseHeader(header).Ok?
    ensures "value" in ParseHeader(header).value && "header" in ParseHeader(header).value
  {
    var ps := ParamPairs(HeaderParams(header)).value;
    HeaderPairsKeys(Strip(HeaderSplit(header).0), header, ps);
  }

  /** The keys of the pairs `parse_header` builds. */
  lemma HeaderPairsKeys(value: string, header: string, ps: seq<(string, string)>)
    ensures FromPairs(HeaderPairs(value, header, ps)).Keys == {"value", "header"} + set i | 0 <= i < |ps| :: ps[i].0
  {
    var all := HeaderPairs(value, header, ps);
    FromPairsKeys(all);
    assert all[0].0 == "value" && all[1].0 == "header";
    forall k | k in FromPairs(all).Keys ensures k in {"value", "header"} + set i | 0 <= i < |ps| :: ps[i].0 {
      var i :| 0 <= i < |all| && all[i].0 == k;
      if i >= 2 {
        assert ps[i - 2].0 == k;
      }
    }
    forall i | 0 <= i < |ps| ensures ps[i].0 in FromPairs(all).Keys {
      assert all[i + 2].0 == ps[i].0;
    }
  }

  /** Looking up the pairs `parse_header` builds: `value` and `header` keep
      their own value unless a parameter of that name follows, and each
      parameter key holds the value of its last occurrence. */
  lemma HeaderPairsLookup(value: string, header: string, ps: seq<(string, string)>)
    ensures var d := FromPairs(HeaderPairs(value, header, ps));
            && ((forall i :: 0 <= i < |ps| ==> ps[i].0 != "value") ==> "value" in d && d["value"] == value)
            && ((forall i :: 0 <= i < |ps| ==> ps[i].0 != "header") ==> "header" in d && d["header"] == header)
            && (forall i :: 0 <= i < |ps| && (forall j :: i < j < |ps| ==> ps[j].0 != ps[i].0) ==>
                  ps[i].0 in d && d[ps[i].0] == ps[i].1)
  {
    var all := HeaderPairs(value, header, ps);
    if forall i :: 0 <= i < |ps| ==> ps[i].0 != "value" {
      FromPairsLast(all, 0);
    }
    if forall i :: 0 <= i < |ps| ==> ps[i].0 != "header" {
      FromPairsLast(all, 1);
    }
    forall i | 0 <= i < |ps| && (forall j :: i < j < |ps| ==> ps[j].0 != ps[i].0)
      ensures ps[i].0 in FromPairs(all) && FromPairs(all)[ps[i].0] == ps[i].1
    {
      assert all[i + 2] == ps[i];
      FromPairsLast(all, i + 2);
    }
  }

  /** The text of a header before its first `;` (all of it when there is none). */
  function HeaderHead(header: string): (r: string)
    ensures ';' !in r
    ensures ';' !in header ==> r == header
    ensures ';' in header ==> |r| < |header| && header[|r|] == ';' && r == header[..|r|]
  {
    match Find(header, ';')
    case None => header
    case Some(i) => header[..i]
  }

  /** Splitting at the first `;`, which lies inside the stripped header: the
      text between the leading whitespace and that `;`, and the rest. */
  lemma HeaderSplitAt(header: string, i: nat)
    requires i < |header| && header[i] == ';' && ';' !in header[..i]
    ensures Lead(header, Whitespace) <= i < Lead(header, Whitespace) + |Strip(header)|
    ensures HeaderSplit(header) == (header[Lead(header, Whitespace)..i],
                                    Some(Strip(header)[i - Lead(header, Whitespace) + 1..]))
  {
    var a := Lead(header, Whitespace);
    StripSplitAt(header, Whitespace, ';', i);
    SplitOnceAt(header[a..i], ';', Strip(header)[i - a + 1..]);
  }

  /** The part `parse_header` keeps as the value is the text before the first
      `;`, up to surrounding whitespace. */
  lemma HeaderSplitHead(header: string)
    ensures Strip(HeaderSplit(header).0) == Strip(HeaderHead(header))
  {
    if ';' in header {
      var i := |HeaderHead(header)|;
      HeaderSplitAt(header, i);
      var a := Lead(header, Whitespace);
      StripCharsSlice(header, Whitespace);
      assert header[..i] == header[..a] + header[a..i];
      StripSkipsPrefix(header[..a], header[a..i], Whitespace);
    }
  }

  /** What `parse_header` returns, key by key: `value` is the stripped text
      before the first `;`, `header` is the header itself (unless a parameter
      of that name replaces either), and each parameter key holds the value
      of its last occurrence; there are no other keys. */
  lemma ParseHeaderFields(header: string)
    requires ParseHeader(header).Ok?
    ensures var d := ParseHeader(header).value;
            var ps := ParamPairs(HeaderParams(header)).value;
            && ((forall i :: 0 <= i < |ps| ==> ps[i].0 != "value") ==> "value" in d && d["value"] == Strip(HeaderHead(header)))
            && ((forall i :: 0 <= i < |ps| ==> ps[i].0 != "header") ==> "header" in d && d["header"] == header)
            && (forall i :: 0 <= i < |ps| && (forall j :: i < j < |ps| ==> ps[j].0 != ps[i].0) ==>
                  ps[i].0 in d && d[ps[i].0] == ps[i].1)
            && d.Keys == {"value", "header"} + set i | 0 <= i < |ps| :: ps[i].0
  {
    var ps := ParamPairs(HeaderParams(header)).value;
    var v := Strip(HeaderSplit(header).0);
    assert ParseHeader(header).value == FromPairs(HeaderPairs(v, header, ps));
    HeaderSplitHead(header);
    HeaderPairsLookup(v, header, ps);
    HeaderPairsKeys(v, header, ps);
  }

  /** A header without `;` parses to exactly its stripped value and itself. */
  lemma ParseHeaderPlain(header: string)
    requires ';' !in header
    ensures ParseHeader(header) == Ok(map["value" := Strip(header), "header" := header])
  {
    assert HeaderParams(header) == [];
    ParamPairsOk([], []);
    var all := HeaderPairs(Strip(header), header, []);
    assert all[..1] == [("value", Strip(header))];
    assert FromPairs(all[..1]) == map["value" := Strip(header)];
  }

  /** The stripped text before the first `;` contains no `;`. */
  lemma HeaderValueNoSemicolon(header: string)
    ensures ';' !in Strip(HeaderSplit(header).0)
  {
    HeaderSplitHead(header);
    StripCharsOmits(HeaderHead(header), Whitespace, ';');
  }

  /** A parameter without `;` yields a value without `;`. */
  lemma KeyValueNoSemicolon(param: string)
    requires ';' !in param && KeyValue(param).Some?
    ensures ';' !in KeyValue(param).value.1
  {
    StripCharsOmits(param, Whitespace, ';');
  }

  /** Every `value` that `parse_header` produces is free of `;`. */
  lemma ParsedValueHasNoSemicolon(header: string)
    requires ParseHeader(header).Ok?
    ensures "value" in ParseHeader(header).value && ';' !in ParseHeader(header).value["value"]
  {
    var params := HeaderParams(header);
    var ps := ParamPairs(params).value;
    var all := HeaderPairs(Strip(HeaderSplit(header).0), header, ps);
    assert ParseHeader(header).value == FromPairs(all);
    assert all[0].0 == "value";
    var i := FromPairsSource(all, "value");
    if i == 0 {
      HeaderValueNoSemicolon(header);
    } else {
      assert i >= 2 && all[i] == ps[i - 2];
      ParamValueNoSemicolon(header, i - 2);
    }
  }

  /** The value of a parameter pair holds no `;`. */
  lemma ParamValueNoSemicolon(header: string, j: nat)
    requires ParseHeader(header).Ok? && j < |HeaderParams(header)|
    ensures var ps := ParamPairs(HeaderParams(header)).value;
            ';' !in ps[j].1
  {
    var params := HeaderParams(header);
    assert ParamPairs(params).value[j] == KeyValue(params[j]).value;
    assert ';' !in params[j] by {
      var rest := HeaderSplit(header).1.value;
      assert params == Split(Strip(rest), ';');
    }
    KeyValueNoSemicolon(params[j]);
  }


  /** The `type` and `subtype` fields `parse_media` adds:
      `zip(('type', 'subtype'), value.strip().split('/'))`. */
  function MediaFields(value: string): (r: Parsed)
    ensures r.Keys == {"type"} + (if '/' in Strip(value) then {"subtype"} else {})
  {
    var parts := Split(Strip(value), '/');
    SplitHead(Strip(value), '/');
    if |parts| == 1 then map["type" := parts[0]]
    else map["type" := parts[0], "subtype" := parts[1]]
  }

  /** `parse_media(media)` */
  function ParseMedia(media: string): Result<Parsed> {
    var parsed :- ParseHeader(media);
    ParseHeaderKeys(media);
    Ok(parsed + MediaFields(parsed["value"]))
  }

  /** `parse_media` fails, with ValueError, exactly when `parse_header` does. */
  lemma ParseMediaResult(media: string)
    ensures ParseMedia(media).Ok? <==> ParseHeader(media).Ok?
    ensures ParseMedia(media).Err? ==> ParseMedia(media).error == ValueError
  {
    ParseHeaderResult(media);
  }

  /** `parse_media` keeps every field of the parsed header except `type` and
      `subtype`, and always sets `type`. */
  lemma ParseMediaKeeps(media: string)
    requires ParseMedia(media).Ok?
    ensures "type" in ParseMedia(media).value
    ensures forall k :: k in ParseHeader(media).value && k != "type" && k != "subtype" ==>
              k in ParseMedia(media).value && ParseMedia(media).value[k] == ParseHeader(media).value[k]
  {
  }

  /** `parse_media` sets `subtype` when the media value has a `/`; otherwise
      only a parameter named `subtype` provides one. */
  lemma ParseMediaSubtype(media: string)
    requires ParseMedia(media).Ok?
    ensures "value" in ParseHeader(media).value
    ensures "subtype" in ParseMedia(media).value <==>
              "subtype" in ParseHeader(media).value || '/' in Strip(ParseHeader(media).value["value"])
  {
    ParseHeaderKeys(media);
  }

  /** `type` is the media value up to its first `/`; `subtype` is what
      follows, up to a second `/`. */
  lemma MediaTypeSubtype(media: string)
    requires ParseMedia(media).Ok?
    ensures "value" in ParseHeader(media).value
    ensures var d := ParseMedia(media).value;
            var v := Strip(ParseHeader(media).value["value"]);
            "type" in d && ('/' in v ==> "subtype" in d) &&
            match SplitOnce(v, '/')
            case None => d["type"] == v
            case Some((t, rest)) =>
              d["type"] == t && d["subtype"] == (if '/' in rest then SplitOnce(rest, '/').value.0 else rest)
  {
    ParseHeaderResult(media);
    var v := Strip(ParseHeader(media).value["value"]);
    SplitHead(v, '/');
    if '/' in v {
      SplitHead(SplitOnce(v, '/').value.1, '/');
    }
  }

  function Pow10(n: nat): (r: nat)
    ensures r >= 1
  {
    if n == 0 then 1 else 10 * Pow10(n - 1)
  }

  /** An unsigned decimal with an optional point and at most three decimals,
      in thousandths. */
  function Unsigned(body: string): Option<nat> {
    match SplitOnce(body, '.')
    case None =>
      if body != [] && AllDigits(body) then Some(DecimalValue(body) * 1000) else None
    case Some((ip, fp)) =>
      if (ip != [] || fp != []) && AllDigits(ip) && AllDigits(fp) && |fp| <= 3
      then Some(DecimalValue(ip) * 1000 + DecimalValue(fp) * Pow10(3 - |fp|))
      else None
  }

  /** `float(s)` for a quality value, in thousandths: surrounding whitespace,
      an optional sign, and a decimal with at most three decimals; None where
      the text is not such a number. */
  function ParseQ(s: string): Option<int> {
    var t := Strip(s);
    var signed := t != [] && (t[0] == '-' || t[0] == '+');
    var body := if signed then t[1..] else t;
    match Unsigned(body)
    case None => None
    case Some(m) => Some(if signed && t[0] == '-' then -(m as int) else m)
  }

  /** The three decimals of a quality value given in thousandths. */
  function Thousandths(q: nat): (r: string)
    ensures |r| == 3 && AllDigits(r)
  {
    var m := q % 1000;
    [DigitChar(m / 10 / 10), DigitChar(m / 10 % 10), DigitChar(m % 10)]
  }

  /** The canonical text of a quality value given in thousandths: `1.000`,
      `0.500`. */
  function QText(q: nat): string {
    Decimal(q / 1000) + "." + Thousandths(q)
  }

  lemma ThousandthsValue(q: nat)
    ensures DecimalValue(Thousandths(q)) == q % 1000
  {
    var fp := Thousandths(q);
    var m := q % 1000;
    var hi := m / 10;
    assert DigitValue(fp[0]) == hi / 10 && DigitValue(fp[1]) == hi % 10 && DigitValue(fp[2]) == m % 10;
    assert DecimalValue(fp[..1]) == hi / 10 by {
      assert fp[..1][..0] == [];
    }
    assert DecimalValue(fp[..2]) == hi by {
      assert fp[..2][..1] == fp[..1];
      assert hi == hi / 10 * 10 + hi % 10;
    }
    assert fp[..3] == fp;
    assert m == hi * 10 + m % 10;
  }

  /** A text of digits, a point and three digits reads as its value in
      thousandths. */
  lemma UnsignedPoint(ip: string, fp: string)
    requires ip != [] && AllDigits(ip) && AllDigits(fp) && |fp| == 3
    ensures Unsigned(ip + "." + fp) == Some(DecimalValue(ip) * 1000 + DecimalValue(fp))
  {
    DigitsExclude(ip, '.');
    assert ip + "." + fp == ip + ['.'] + fp;
    SplitOnceAt(ip, '.', fp);
    assert Pow10(3 - |fp|) == 1;
  }

  /** A text that starts and ends with a digit is read without strip or sign. */
  lemma ParseQUnsigned(t: string)
    requires t != [] && IsDigit(t[0]) && IsDigit(t[|t| - 1])
    ensures ParseQ(t) == Unsigned(t)
  {
    StripCharsNoop(t, Whitespace);
    assert Strip(t) == t;
    assert t[0] != '-' && t[0] != '+';
  }

  lemma QTextEnds(q: nat)
    ensures QText(q) != [] && IsDigit(QText(q)[0]) && IsDigit(QText(q)[|QText(q)| - 1])
  {
    var t := QText(q);
    assert t[0] == Decimal(q / 1000)[0] && t[|t| - 1] == Thousandths(q)[2];
  }

  lemma QTextValue(q: nat)
    ensures DecimalValue(Decimal(q / 1000)) * 1000 + DecimalValue(Thousandths(q)) == q
  {
    DecimalRoundTrip(q / 1000);
    ThousandthsValue(q);
  }

  lemma UnsignedQText(q: nat)
    ensures Unsigned(QText(q)) == Some(q)
  {
    UnsignedPoint(Decimal(q / 1000), Thousandths(q));
    QTextValue(q);
  }

  /** Reading a rendered quality value gives it back: the partner of ParseQ. */
  lemma ParseQText(q: nat)
    ensures ParseQ(QText(q)) == Some(q)
  {
    QTextEnds(q);
    ParseQUnsigned(QText(q));
    UnsignedQText(q);
  }

  /** The first part of the accept sort key, `float(p.q) if p.q else 1.0`, in
      thousandths; None where `float` raises. */
  function QOf(entry: Parsed): Option<int> {
    match Attr(entry, "q")
    case None => Some(1000)
    case Some(q) => if q == "" then Some(1000) else ParseQ(q)
  }

  /** The accept sort key `(q, len(p.value), len(p))`. */
  function AcceptRank(entry: Parsed): Rank {
    Rank(QOf(entry).GetOr(0), |Attr(entry, "value").GetOr("")|, |entry|)
  }

  /** `map(parse_media, parts)`; every failure is a ValueError. */
  function ParseEach(parts: seq<string>): Result<seq<Parsed>> {
    if forall i :: 0 <= i < |parts| ==> ParseMedia(parts[i]).Ok? then
      Ok(seq(|parts|, i requires 0 <= i < |parts| => ParseMedia(parts[i]).value))
    else
      Err(ValueError)
  }

  /** `sorted(parsed, key=sort_key, reverse=True)`: ValueError when the key of
      some entry cannot be computed. */
  function SortAccept(entries: seq<Parsed>): Result<seq<Parsed>> {
    if forall i :: 0 <= i < |entries| ==> QOf(entries[i]).Some? then Ok(SortDesc(entries, AcceptRank))
    else Err(ValueError)
  }

  /** `parse_accept(accept)` */
  function ParseAccept(accept: string): Result<seq<Parsed>> {
    var entries :- ParseEach(Split(accept, ','));
    SortAccept(entries)
  }

  /** `parse_accept` fails, with ValueError, exactly when a part does not parse
      or the q of an entry is not a number; otherwise it returns the parsed
      entries, all of them, by non-increasing `(q, len(value), len(params))`. */
  lemma ParseAcceptOrder(accept: string)
    ensures var entries := ParseEach(Split(accept, ','));
            ParseAccept(accept).Ok? <==>
              entries.Ok? && forall i :: 0 <= i < |entries.value| ==> QOf(entries.value[i]).Some?
    ensures ParseAccept(accept).Err? ==> ParseAccept(accept).error == ValueError
    ensures ParseAccept(accept).Ok? ==>
              && multiset(ParseAccept(accept).value) == multiset(ParseEach(Split(accept, ',')).value)
              && SortedDesc(ParseAccept(accept).value, AcceptRank)
  {
  }

  /** Entries of equal rank keep the order they had in the header. */
  lemma ParseAcceptStable(accept: string, k: Rank)
    requires ParseAccept(accept).Ok?
    ensures WithRank(ParseAccept(accept).value, AcceptRank, k)
            == WithRank(ParseEach(Split(accept, ',')).value, AcceptRank, k)
  {
    SortDescStable(ParseEach(Split(accept, ',')).value, AcceptRank, k);
  }

  /** The `;key=value` text of the parameters. */
  function ParamText(params: seq<(string, string)>): string
    decreases |params|
  {
    if params == [] then "" else ";" + params[0].0 + "=" + params[0].1 + ParamText(params[1..])
  }

  /** `combine_header(value, *params)` */
  function CombineHeader(value: string, params: seq<(string, string)>): (r: string)
    ensures |r| >= |value| && r[..|value|] == value
    ensures params == [] ==> r == value
  {
    value + ParamText(params)
  }

  /** Text `parse_header` keeps intact: no whitespace and no `;`. */
  predicate Plain(s: string) {
    forall i :: 0 <= i < |s| ==> s[i] !in Whitespace && s[i] != ';'
  }

  predicate PlainParam(p: (string, string)) {
    p.0 != [] && p.1 != [] && Plain(p.0) && Plain(p.1) && '=' !in p.0
  }

  /** The `key=value` item of one parameter. */
  function Item(p: (string, string)): string {
    p.0 + "=" + p.1
  }

  /** The `key=value` items of the parameters. */
  function Items(params: seq<(string, string)>): (r: seq<string>)
    ensures |r| == |params|
    ensures forall i :: 0 <= i < |params| ==> r[i] == Item(params[i])
  {
    seq(|params|, i requires 0 <= i < |params| => Item(params[i]))
  }

  lemma {:induction false} ParamTextJoin(params: seq<(string, string)>)
    requires params != []
    ensures ParamText(params) == ";" + Join(Items(params), ";")
    decreases |params|
  {
    if |params| > 1 {
      ParamTextJoin(params[1..]);
      assert Items(params)[1..] == Items(params[1..]);
    }
  }

  /** A plain item is not empty, has no whitespace at either end and no `;`. */
  lemma ItemPlain(p: (string, string))
    requires PlainParam(p)
    ensures Item(p) != [] && Item(p)[0] !in Whitespace && Item(p)[|Item(p)| - 1] !in Whitespace
    ensures ';' !in Item(p)
  {
    var item := Item(p);
    assert item[0] == p.0[0] && item[|item| - 1] == p.1[|p.1| - 1];
    forall k | 0 <= k < |item| ensures item[k] != ';' {
      if k < |p.0| { assert item[k] == p.0[k]; }
      else if k > |p.0| { assert item[k] == p.1[k - |p.0| - 1]; }
    }
  }

  /** A plain item splits back into its key and value. */
  lemma ItemKeyValue(p: (string, string))
    requires PlainParam(p)
    ensures KeyValue(Item(p)) == Some(p)
  {
    ItemPlain(p);
    StripCharsNoop(Item(p), Whitespace);
    assert Item(p) == p.0 + ['='] + p.1;
    SplitOnceAt(p.0, '=', p.1);
  }

  /** The items joined by `;` neither start nor end with whitespace and
      split back into the items. */
  lemma ItemsJoin(params: seq<(string, string)>)
    requires params != []
    requires forall i :: 0 <= i < |params| ==> PlainParam(params[i])
    ensures var j := Join(Items(params), ";");
            j != [] && j[0] !in Whitespace && j[|j| - 1] !in Whitespace && Split(j, ';') == Items(params)
  {
    var items := Items(params);
    forall i | 0 <= i < |items| ensures items[i] != [] && ';' !in items[i] {
      ItemPlain(params[i]);
    }
    JoinEnds(items, ";");
    ItemPlain(params[0]);
    ItemPlain(params[|items| - 1]);
    SplitJoin(items, ';');
  }

  /** The parameter text starts with `;` and does not end with whitespace. */
  lemma ParamTextEnds(params: seq<(string, string)>)
    requires params != []
    requires forall i :: 0 <= i < |params| ==> PlainParam(params[i])
    ensures ParamText(params) == ";" + Join(Items(params), ";")
    ensures ParamText(params)[0] == ';' && ParamText(params)[|ParamText(params)| - 1] !in Whitespace
  {
    ParamTextJoin(params);
    ItemsJoin(params);
  }

  lemma ItemsPairs(params: seq<(string, string)>)
    requires forall i :: 0 <= i < |params| ==> PlainParam(params[i])
    ensures ParamPairs(Items(params)) == Ok(params)
  {
    var items := Items(params);
    forall i | 0 <= i < |items| ensures KeyValue(items[i]) == Some(params[i]) {
      ItemKeyValue(params[i]);
    }
    ParamPairsOk(items, params);
  }

  /** The stripped text of a combined header: the value without its leading
      whitespace, then the parameters. */
  lemma CombinedStrip(value: string, params: seq<(string, string)>)
    requires params != []
    requires forall i :: 0 <= i < |params| ==> PlainParam(params[i])
    ensures Strip(CombineHeader(value, params))
            == value[Lead(value, Whitespace)..] + [';'] + Join(Items(params), ";")
  {
    ParamTextEnds(params);
    StripAppend(value, ParamText(params), Whitespace);
  }

  /** `parse_header` splits a combined header into its value and the text of
      its parameters. */
  lemma CombinedSplit(value: string, params: seq<(string, string)>)
    requires ';' !in value && params != []
    requires forall i :: 0 <= i < |params| ==> PlainParam(params[i])
    ensures HeaderSplit(CombineHeader(value, params))
            == (value[Lead(value, Whitespace)..], Some(Join(Items(params), ";")))
  {
    CombinedStrip(value, params);
    SuffixOmits(value, Lead(value, Whitespace), ';');
    SplitOnceAt(value[Lead(value, Whitespace)..], ';', Join(Items(params), ";"));
    ParamTextEnds(params);
    assert CombineHeader(value, params)[|value|] == ';';
  }

  /** The parameters `parse_header` reads back from a combined header are
      the items that were written. */
  lemma CombinedParams(value: string, params: seq<(string, string)>)
    requires ';' !in value && params != []
    requires forall i :: 0 <= i < |params| ==> PlainParam(params[i])
    ensures HeaderParams(CombineHeader(value, params)) == Items(params)
  {
    CombinedSplit(value, params);
    ItemsJoin(params);
    StripCharsNoop(Join(Items(params), ";"), Whitespace);
  }

  /** Parsing a combined header gives back its stripped value and its
      parameters: the partner of CombineHeader. */
  lemma ParseCombinedHeader(value: string, params: seq<(string, string)>)
    requires ';' !in value
    requires forall i :: 0 <= i < |params| ==> PlainParam(params[i])
    ensures ParseHeader(CombineHeader(value, params))
            == Ok(FromPairs(HeaderPairs(Strip(value), CombineHeader(value, params), params)))
  {
    if params == [] {
      ParseUncombinedHeader(value);
    } else {
      var l := value[Lead(value, Whitespace)..];
      CombinedSplit(value, params);
      CombinedParams(value, params);
      ItemsPairs(params);
      LeadStripped(value);
    }
  }

  /** Without parameters the combined header is the value itself. */
  lemma ParseUncombinedHeader(value: string)
    requires ';' !in value
    ensures ParseHeader(CombineHeader(value, [])) == Ok(FromPairs(HeaderPairs(Strip(value), CombineHeader(value, []), [])))
  {
    ParseHeaderPlain(value);
    var all := HeaderPairs(Strip(value), value, []);
    assert all[..1] == [("value", Strip(value))];
    assert FromPairs(all[..1]) == map["value" := Strip(value)];
  }

  /** Stripping after dropping the leading whitespace is stripping. */
  lemma LeadStripped(value: string)
    ensures Strip(value[Lead(value, Whitespace)..]) == Strip(value)
  {
    var l := value[Lead(value, Whitespace)..];
    StripCharsSlice(value, Whitespace);
    assert value == value[..Lead(value, Whitespace)] + l;
    StripSkipsPrefix(value[..Lead(value, Whitespace)], l, Whitespace);
  }


  /** The attributes of a response the core writes (the Response class
      itself, rs/response.py, is not part of this model). */
  class Response {
    var status: int
    var headers: map<string, string>
    var entity: Option<string>

    constructor (status: int, headers: map<string, string>, entity: Option<string>)
      ensures this.status == status && this.headers == headers && this.entity == entity
    {
      this.status := status;
      this.headers := headers;
      this.entity := entity;
    }
  }

  /** The header items with lower-cased names. */
  function LoweredPairs(headers: seq<(string, string)>): (r: seq<(string, string)>)
    ensures |r| == |headers|
    ensures forall i :: 0 <= i < |headers| ==> r[i] == (Lower(headers[i].0), headers[i].1)
  {
    seq(|headers|, i requires 0 <= i < |headers| => (Lower(headers[i].0), headers[i].1))
  }

  /** One more header item stores its value under its lower-cased name. */
  lemma LoweredStep(headers: seq<(string, string)>, i: nat)
    requires i < |headers|
    ensures FromPairs(LoweredPairs(headers[..i + 1]))
            == FromPairs(LoweredPairs(headers[..i]))[Lower(headers[i].0) := headers[i].1]
  {
    assert LoweredPairs(headers[..i + 1])[..i] == LoweredPairs(headers[..i]);
  }

  /** `set_headers(message, headers)`: every header item is stored under its
      lower-cased name, later items overriding earlier ones; nothing else of
      the message changes. */
  method SetHeaders(message: Response, headers: seq<(string, string)>)
    modifies message
    ensures message.headers == old(message.headers) + FromPairs(LoweredPairs(headers))
    ensures message.status == old(message.status) && message.entity == old(message.entity)
  {
    if headers != [] {
      for i := 0 to |headers|
        invariant message.headers == old(message.headers) + FromPairs(LoweredPairs(headers[..i]))
        invariant message.status == old(message.status) && message.entity == old(message.entity)
      {
        ghost var done := FromPairs(LoweredPairs(headers[..i]));
        LoweredStep(headers, i);
        MergeUpdate(old(message.headers), done, Lower(headers[i].0), headers[i].1);
        message.headers := message.headers[Lower(headers[i].0) := headers[i].1];
      }
      assert headers[..|headers|] == headers;
    } else {
      assert FromPairs(LoweredPairs(headers)) == map[];
    }
  }

  /** The fallback media type of `set_entity` as the source writes it: `\o`
      is no escape in Python, so the separator is a backslash. */
  const DefaultMediaAsWritten := "application\\octet-stream"

  /** The fallback media type `set_entity` intends. */
  const DefaultMedia := "application/octet-stream"

  /** `media or <default>` */
  function MediaOrDefault(media: Option<string>): (r: string)
    ensures media.Some? && media.value != "" ==> r == media.value
    ensures media.None? || media.value == "" ==> r == DefaultMedia
  {
    if media.Some? && media.value != "" then media.value else DefaultMedia
  }

  /** The content-type `set_entity` writes for a parsed media type: the
      original header when it names a charset, otherwise its value with the
      default charset appended. */
  function ContentType(parsed: Parsed): string {
    var charset := Attr(parsed, "charset");
    if charset.Some? && charset.value != "" then Attr(parsed, "header").GetOr("")
    else CombineHeader(Attr(parsed, "value").GetOr(""), [("charset", Encoding)])
  }

  /** The writes of `set_entity` once the media type is parsed: with an
      entity, its content type and length and the entity itself; without
      one, nothing. A media type that did not parse leaves the message as
      it was. */
  method WriteEntity(message: Response, entity: Option<string>, parsed: Result<Parsed>) returns (r: Result<()>)
    modifies message
    ensures message.status == old(message.status)
    ensures entity.None? ==>
              r == Ok(()) && message.headers == old(message.headers) && message.entity == old(message.entity)
    ensures entity.Some? && parsed.Err? ==>
              r == Err(ValueError) && message.headers == old(message.headers) && message.entity == old(message.entity)
    ensures entity.Some? && parsed.Ok? ==>
              && r == Ok(())
              && message.entity == entity
              && message.headers == old(message.headers)
                   ["content-type" := ContentType(parsed.value)]
                   ["content-length" := Decimal(|entity.value|)]
  {
    r := Ok(());
    if entity.Some? {
      if parsed.Err? {
        r := Err(ValueError);
      } else {
        message.headers := message.headers["content-type" := ContentType(parsed.value)];
        message.headers := message.headers["content-length" := Decimal(|entity.value|)];
        message.entity := entity;
      }
    }
  }

  /** `set_entity(message, entity, media)`: with an entity, records its
      content type and length and stores it; without one, changes nothing.
      A media type that does not parse raises ValueError before any write. */
  method SetEntity(message: Response, entity: Option<string>, media: Option<string>) returns (r: Result<()>)
    modifies message
    ensures message.status == old(message.status)
    ensures entity.None? ==>
              r == Ok(()) && message.headers == old(message.headers) && message.entity == old(message.entity)
    ensures entity.Some? && ParseMedia(MediaOrDefault(media)).Err? ==>
              r == Err(ValueError) && message.headers == old(message.headers) && message.entity == old(message.entity)
    ensures entity.Some? && ParseMedia(MediaOrDefault(media)).Ok? ==>
              && r == Ok(())
              && message.entity == entity
              && message.headers == old(message.headers)
                   ["content-type" := ContentType(ParseMedia(MediaOrDefault(media)).value)]
                   ["content-length" := Decimal(|entity.value|)]
  {
    r := WriteEntity(message, entity, ParseMedia(MediaOrDefault(media)));
  }

  /** A value without `;` combined with the default charset parses back to
      that value and that charset. */
  lemma CharsetHeader(value: string)
    requires ';' !in value
    ensures var ct := ParseHeader(CombineHeader(value, [("charset", Encoding)]));
            && ct.Ok?
            && "charset" in ct.value && ct.value["charset"] == Encoding
            && "value" in ct.value && ct.value["value"] == Strip(value)
  {
    var params := [("charset", Encoding)];
    assert PlainParam(params[0]);
    ParseCombinedHeader(value, params);
    HeaderPairsLookup(Strip(value), CombineHeader(value, params), params);
  }

  /** When the media type names no charset, the content-type `set_entity`
      writes declares the default one and keeps the media value. */
  lemma ContentTypeDeclaresCharset(media: string)
    requires ParseMedia(media).Ok?
    requires var cs := Attr(ParseMedia(media).value, "charset"); cs.None? || cs.value == ""
    ensures "value" in ParseMedia(media).value
    ensures var ct := ParseHeader(ContentType(ParseMedia(media).value));
            && ct.Ok?
            && "charset" in ct.value && ct.value["charset"] == Encoding
            && "value" in ct.value && ct.value["value"] == Strip(ParseMedia(media).value["value"])
  {
    ParseMediaKeeps(media);
    ParsedValueHasNoSemicolon(media);
    var d := ParseMedia(media).value;
    var value := d["value"];
    assert value == ParseHeader(media).value["value"];
    assert ContentType(d) == CombineHeader(value, [("charset", Encoding)]);
    CharsetHeader(value);
  }

  /** A media type with no whitespace and no `;` parses to itself as value
      and header, plus its type and subtype. */
  lemma ParsePlainMedia(m: string)
    requires m != [] && Plain(m)
    ensures ParseMedia(m) == Ok(map["value" := m, "header" := m] + MediaFields(m))
  {
    StripCharsNoop(m, Whitespace);
    ParseHeaderPlain(m);
  }

  /** The type and subtype of a media type with no whitespace. */
  lemma MediaFieldsPlain(m: string)
    requires m != [] && Plain(m)
    ensures '/' !in m ==> MediaFields(m) == map["type" := m]
    ensures '/' in m ==> MediaFields(m) == map["type" := Split(m, '/')[0], "subtype" := Split(m, '/')[1]]
  {
    StripCharsNoop(m, Whitespace);
    SplitHead(m, '/');
  }

  lemma DefaultMediaAsWrittenPlain()
    ensures DefaultMediaAsWritten != [] && Plain(DefaultMediaAsWritten) && '/' !in DefaultMediaAsWritten
  {
  }

  lemma DefaultMediaPlain()
    ensures DefaultMedia != [] && Plain(DefaultMedia) && '/' in DefaultMedia
  {
  }

  lemma DefaultMediaSplit()
    ensures Split(DefaultMedia, '/') == ["application", "octet-stream"]
  {
    assert DefaultMedia == Join(["application", "octet-stream"], "/");
    SplitJoin(["application", "octet-stream"], '/');
  }

  /** As written, the fallback media type parses without a subtype: its whole
      text becomes the `type`. */
  lemma DefaultMediaAsWrittenLacksSubtype()
    ensures ParseMedia(DefaultMediaAsWritten).Ok?
    ensures "subtype" !in ParseMedia(DefaultMediaAsWritten).value
    ensures "type" in ParseMedia(DefaultMediaAsWritten).value
    ensures ParseMedia(DefaultMediaAsWritten).value["type"] == DefaultMediaAsWritten
  {
    var m := DefaultMediaAsWritten;
    DefaultMediaAsWrittenPlain();
    ParsePlainMedia(m);
    MediaFieldsPlain(m);
  }

  /** As written, an entity sent with no media type goes out with the
      content type `application\octet-stream;charset=utf-8`, where the
      corrected fallback gives `application/octet-stream;charset=utf-8`. */
  lemma DefaultContentTypeAsWritten()
    ensures ParseMedia(DefaultMediaAsWritten).Ok?
    ensures ContentType(ParseMedia(DefaultMediaAsWritten).value) == DefaultMediaAsWritten + ";charset=" + Encoding
    ensures ParseMedia(DefaultMedia).Ok?
    ensures ContentType(ParseMedia(DefaultMedia).value) == DefaultMedia + ";charset=" + Encoding
  {
    DefaultMediaAsWrittenPlain();
    PlainContentType(DefaultMediaAsWritten);
    DefaultMediaPlain();
    PlainContentType(DefaultMedia);
  }

  /** A media type with no whitespace and no parameters gets the default
      charset appended. */
  lemma PlainContentType(m: string)
    requires m != [] && Plain(m)
    ensures ParseMedia(m).Ok?
    ensures ContentType(ParseMedia(m).value) == m + ";charset=" + Encoding
  {
    ParsePlainMedia(m);
    var fields := MediaFields(m);
    assert "charset" !in fields.Keys && "value" !in fields.Keys;
    var parsed := map["value" := m, "header" := m] + fields;
    NoCharsetContentType(parsed);
  }

  /** With no charset, the content type is the value with `;charset=utf-8`
      appended. */
  lemma NoCharsetContentType(parsed: Parsed)
    requires "charset" !in parsed && "value" in parsed
    ensures ContentType(parsed) == parsed["value"] + ";charset=" + Encoding
  {
    var ps := [("charset", Encoding)];
    assert ps[1..] == [];
    assert ParamText(ps) == ";" + "charset" + "=" + Encoding + "";
    assert Attr(parsed, "charset").None?;
  }

  /** The intended fallback parses to type `application` and subtype
      `octet-stream`. */
  lemma DefaultMediaTypeSubtype()
    ensures ParseMedia(DefaultMedia).Ok?
    ensures "type" in ParseMedia(DefaultMedia).value && "subtype" in ParseMedia(DefaultMedia).value
    ensures ParseMedia(DefaultMedia).value["type"] == "application"
    ensures ParseMedia(DefaultMedia).value["subtype"] == "octet-stream"
  {
    var m := DefaultMedia;
    DefaultMediaPlain();
    ParsePlainMedia(m);
    MediaFieldsPlain(m);
    DefaultMediaSplit();
  }
}
