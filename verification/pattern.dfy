/** Compiled path patterns (resource.py:98-108) and how a request path is
    matched against them (rs/request.py:65, :126-127). A pattern is kept as
    the token sequence it was compiled from: literal characters and
    `{name}` placeholders, each placeholder standing for the named group
    `(?P<name>.+)`. Matching follows Python's backtracking for greedy `.+`. */
module PathPatterns {
  import opened Base
  import opened PyStr
  import opened Lists

  datatype Token = Lit(c: char) | Cap(name: string)

  const Slash: set<char> := {'/'}

  /** The placeholder that `re.findall(r'\{(.+?)\}', ...)` finds at the
      start of `s`: a `{`, at least one character, and the first `}` after
      that; `.` does not cross a newline. */
  function Placeholder(s: string): (r: Option<string>)
    ensures r.Some? ==> |r.value| + 2 <= |s|
  {
    if |s| < 3 || s[0] != '{' then None
    else match Find(s[2..], '}')
      case None => None
      case Some(j) =>
        var name := s[1..j + 2];
        if '\n' in name then None else Some(name)
  }

  /** A found placeholder is `{`, a non-empty name with no newline and no
      `}` after its first character, then `}`. */
  lemma PlaceholderShape(s: string)
    requires Placeholder(s).Some?
    ensures var n := Placeholder(s).value;
            && n != [] && '\n' !in n && '}' !in n[1..]
            && s[..|n| + 2] == "{" + n + "}"
  {
    var j := Find(s[2..], '}').value;
    var n := s[1..j + 2];
    assert n[1..] == s[2..][..j];
    PlaceholderText(s);
  }

  /** A found placeholder is the text it was found in. */
  lemma PlaceholderText(s: string)
    requires Placeholder(s).Some?
    ensures s[..|Placeholder(s).value| + 2] == "{" + Placeholder(s).value + "}"
  {
    var j := Find(s[2..], '}').value;
    var n := s[1..j + 2];
    assert s[..|n| + 2] == [s[0]] + n + [s[j + 2]];
  }

  /** `re.findall` over the whole path, keeping the text between matches:
      the path as a sequence of literal characters and placeholders. */
  function Scan(s: string): seq<Token>
    decreases |s|
  {
    if s == [] then []
    else match Placeholder(s)
      case Some(n) => [Cap(n)] + Scan(s[|n| + 2..])
      case None => [Lit(s[0])] + Scan(s[1..])
  }

  function TokenText(t: Token): string {
    match t
    case Lit(c) => [c]
    case Cap(n) => "{" + n + "}"
  }

  /** The text a token sequence was scanned from. */
  function Render(ts: seq<Token>): string
    decreases |ts|
  {
    if ts == [] then "" else TokenText(ts[0]) + Render(ts[1..])
  }

  /** Scanning loses nothing: rendering the tokens gives the path back. */
  lemma {:induction false} RenderScan(s: string)
    ensures Render(Scan(s)) == s
    decreases |s|
  {
    if s != [] {
      match Placeholder(s)
      case Some(n) =>
        var rest := s[|n| + 2..];
        assert s == s[..|n| + 2] + rest;
        PlaceholderText(s);
        RenderScan(rest);
        RenderCons(Cap(n), Scan(rest));
      case None =>
        var rest := s[1..];
        assert s == [s[0]] + rest;
        RenderScan(rest);
        RenderCons(Lit(s[0]), Scan(rest));
    }
  }

  lemma RenderCons(t: Token, ts: seq<Token>)
    ensures Render([t] + ts) == TokenText(t) + Render(ts)
  {
    assert ([t] + ts)[1..] == ts;
  }

  lemma {:induction false} RenderAppend(x: seq<Token>, y: seq<Token>)
    ensures Render(x + y) == Render(x) + Render(y)
    decreases |x|
  {
    if x == [] {
      assert x + y == y;
    } else {
      var xy := x + y;
      assert xy[0] == x[0] && xy[1..] == x[1..] + y;
      RenderAppend(x[1..], y);
      calc {
        Render(xy);
        TokenText(x[0]) + Render(x[1..] + y);
        TokenText(x[0]) + (Render(x[1..]) + Render(y));
        Render(x) + Render(y);
      }
    }
  }

  /** The placeholder names, in order. */
  function Names(ts: seq<Token>): seq<string>
    decreases |ts|
  {
    if ts == [] then []
    else (if ts[0].Cap? then [ts[0].name] else []) + Names(ts[1..])
  }

  /** `len(match.groups())`: one group per placeholder. */
  function CapCount(ts: seq<Token>): nat {
    |Names(ts)|
  }

  predicate IsIdentChar(c: char) {
    ('a' <= c <= 'z') || ('A' <= c <= 'Z') || c == '_' || IsDigit(c)
  }

  /** A valid group name: an (ASCII) Python identifier. */
  predicate IsIdentifier(n: string) {
    n != [] && !IsDigit(n[0]) && forall i :: 0 <= i < |n| ==> IsIdentChar(n[i])
  }

  /** Number of leading `/` literals. */
  function LeadSlashes(ts: seq<Token>): (n: nat)
    ensures n <= |ts|
    decreases |ts|
  {
    if ts != [] && ts[0] == Lit('/') then 1 + LeadSlashes(ts[1..]) else 0
  }

  /** Number of trailing `/` literals. */
  function TrailSlashes(ts: seq<Token>): (n: nat)
    ensures n <= |ts|
    decreases |ts|
  {
    if ts != [] && ts[|ts| - 1] == Lit('/') then 1 + TrailSlashes(ts[..|ts| - 1]) else 0
  }

  /** `pattern.strip('/')` on the substituted pattern: a group's text starts
      with `(` and ends with `)`, so only literal slashes are removed. */
  function StripSlashes(ts: seq<Token>): seq<Token> {
    var a := LeadSlashes(ts);
    var b := if |ts| - TrailSlashes(ts) < a then a else |ts| - TrailSlashes(ts);
    ts[a..b]
  }

  /** The compiled pattern of a resource path: `{name}` placeholders become
      named groups, the outer slashes go, and the whole path is anchored.
      Python's `re.compile` rejects a group name that is not an identifier
      and a group name used twice. */
  function Compile(path: string): Result<seq<Token>> {
    var ts := Scan(path);
    var names := Names(ts);
    if exists i :: 0 <= i < |names| && !IsIdentifier(names[i]) then Err(PatternError)
    else if !NoDuplicates(names) then Err(PatternError)
    else Ok(StripSlashes(ts))
  }

  lemma {:induction false} LeadSlashesRun(ts: seq<Token>)
    ensures forall i :: 0 <= i < LeadSlashes(ts) ==> ts[i] == Lit('/')
    ensures LeadSlashes(ts) < |ts| ==> ts[LeadSlashes(ts)] != Lit('/')
    decreases |ts|
  {
    if ts != [] && ts[0] == Lit('/') {
      LeadSlashesRun(ts[1..]);
      forall i | 1 <= i < LeadSlashes(ts) ensures ts[i] == Lit('/') {
        assert ts[i] == ts[1..][i - 1];
      }
    }
  }

  lemma {:induction false} TrailSlashesRun(ts: seq<Token>)
    ensures forall i :: |ts| - TrailSlashes(ts) <= i < |ts| ==> ts[i] == Lit('/')
    ensures TrailSlashes(ts) < |ts| ==> ts[|ts| - TrailSlashes(ts) - 1] != Lit('/')
    decreases |ts|
  {
    if ts != [] && ts[|ts| - 1] == Lit('/') {
      var init := ts[..|ts| - 1];
      TrailSlashesRun(init);
      forall i | |ts| - TrailSlashes(ts) <= i < |ts| - 1 ensures ts[i] == Lit('/') {
        assert ts[i] == init[i];
      }
    }
  }

  /** Slash literals render as slashes. */
  lemma {:induction false} RenderSlashes(ts: seq<Token>)
    requires forall i :: 0 <= i < |ts| ==> ts[i] == Lit('/')
    ensures AllIn(Render(ts), Slash)
    decreases |ts|
  {
    if ts != [] {
      RenderSlashes(ts[1..]);
      assert Render(ts) == "/" + Render(ts[1..]);
    }
  }

  /** Tokens that neither start nor end with a slash literal render as text
      that neither starts nor ends with a slash. */
  lemma RenderEnds(ts: seq<Token>)
    requires ts != [] && ts[0] != Lit('/') && ts[|ts| - 1] != Lit('/')
    ensures Render(ts) != [] && Render(ts)[0] != '/' && Render(ts)[|Render(ts)| - 1] != '/'
  {
    TokenTextEnds(ts[0]);
    TokenTextEnds(ts[|ts| - 1]);
    RenderLast(ts);
    EndsOf(Render(ts), TokenText(ts[0]), Render(ts[1..]), Render(ts[..|ts| - 1]), TokenText(ts[|ts| - 1]));
  }

  /** The last token renders last. */
  lemma RenderLast(ts: seq<Token>)
    requires ts != []
    ensures Render(ts) == Render(ts[..|ts| - 1]) + TokenText(ts[|ts| - 1])
  {
    var n := |ts| - 1;
    assert ts == ts[..n] + [ts[n]];
    RenderSnocAt(ts, ts[..n], ts[n]);
  }

  lemma RenderSnocAt(ts: seq<Token>, init: seq<Token>, t: Token)
    requires ts == init + [t]
    ensures Render(ts) == Render(init) + TokenText(t)
  {
    RenderSnoc(init, t);
  }

  lemma RenderSnoc(init: seq<Token>, t: Token)
    ensures Render(init + [t]) == Render(init) + TokenText(t)
  {
    RenderAppend(init, [t]);
    assert Render([t]) == TokenText(t) + Render([]);
  }

  lemma EndsOf(r: string, f: string, g: string, h: string, l: string)
    requires r == f + g && r == h + l && f != [] && l != []
    ensures r != [] && r[0] == f[0] && r[|r| - 1] == l[|l| - 1]
  {
  }

  /** The text of a token other than a slash neither starts nor ends with
      a slash. */
  lemma TokenTextEnds(t: Token)
    ensures TokenText(t) != []
    ensures t != Lit('/') ==> TokenText(t)[0] != '/' && TokenText(t)[|TokenText(t)| - 1] != '/'
  {
  }

  /** A token sequence is its leading slashes, what stripping keeps, and
      its trailing slashes. */
  lemma SlashSplit(ts: seq<Token>) returns (x: seq<Token>, m: seq<Token>, y: seq<Token>)
    ensures ts == x + m + y && StripSlashes(ts) == m
    ensures forall i :: 0 <= i < |x| ==> x[i] == Lit('/')
    ensures forall i :: 0 <= i < |y| ==> y[i] == Lit('/')
    ensures m != [] ==> m[0] != Lit('/') && m[|m| - 1] != Lit('/')
  {
    LeadSlashesRun(ts);
    TrailSlashesRun(ts);
    var a := LeadSlashes(ts);
    var b := if |ts| - TrailSlashes(ts) < a then a else |ts| - TrailSlashes(ts);
    assert StripSlashes(ts) == ts[a..b];
    x, m, y := SlashParts(ts, a, b);
  }

  /** Cutting tokens at the ends of a run of slash literals at the front and
      one at the back. */
  lemma SlashParts(ts: seq<Token>, a: nat, b: nat) returns (x: seq<Token>, m: seq<Token>, y: seq<Token>)
    requires a <= b <= |ts|
    requires forall i :: 0 <= i < a ==> ts[i] == Lit('/')
    requires forall i :: b <= i < |ts| ==> ts[i] == Lit('/')
    requires a < b ==> ts[a] != Lit('/') && ts[b - 1] != Lit('/')
    ensures x == ts[..a] && m == ts[a..b] && y == ts[b..] && ts == x + m + y
    ensures forall i :: 0 <= i < |x| ==> x[i] == Lit('/')
    ensures forall i :: 0 <= i < |y| ==> y[i] == Lit('/')
    ensures m != [] ==> m[0] != Lit('/') && m[|m| - 1] != Lit('/')
  {
    x, m, y := ts[..a], ts[a..b], ts[b..];
    assert ts == x + m + y;
    forall i | 0 <= i < |y| ensures y[i] == Lit('/') {
      assert y[i] == ts[b + i];
    }
  }

  /** Stripping slash literals from the tokens strips slashes from the text. */
  lemma RenderStrip(ts: seq<Token>)
    ensures Render(StripSlashes(ts)) == StripChars(Render(ts), Slash)
  {
    var x, m, y := SlashSplit(ts);
    RenderParts(x, m, y);
    StripRendered(x, m, y);
  }

  lemma RenderParts(x: seq<Token>, m: seq<Token>, y: seq<Token>)
    ensures Render(x + m + y) == Render(x) + Render(m) + Render(y)
  {
    RenderAppend(x + m, y);
    RenderAppend(x, m);
  }

  /** Rendered slash literals around text that neither starts nor ends
      with a slash strip away. */
  lemma StripRendered(x: seq<Token>, m: seq<Token>, y: seq<Token>)
    requires forall i :: 0 <= i < |x| ==> x[i] == Lit('/')
    requires forall i :: 0 <= i < |y| ==> y[i] == Lit('/')
    requires m != [] ==> m[0] != Lit('/') && m[|m| - 1] != Lit('/')
    ensures StripChars(Render(x) + Render(m) + Render(y), Slash) == Render(m)
  {
    RenderSlashes(x);
    RenderSlashes(y);
    if m != [] {
      RenderEnds(m);
    }
    StripMiddle(Render(x), Render(m), Render(y), Slash);
  }

  lemma {:induction false} NamesAppend(x: seq<Token>, y: seq<Token>)
    ensures Names(x + y) == Names(x) + Names(y)
    decreases |x|
  {
    if x == [] {
      assert x + y == y;
    } else {
      var xy := x + y;
      assert xy[0] == x[0] && xy[1..] == x[1..] + y;
      NamesAppend(x[1..], y);
    }
  }

  lemma {:induction false} NamesOfSlashes(ts: seq<Token>)
    requires forall i :: 0 <= i < |ts| ==> ts[i] == Lit('/')
    ensures Names(ts) == []
    decreases |ts|
  {
    if ts != [] {
      NamesOfSlashes(ts[1..]);
    }
  }

  /** Stripping the outer slashes keeps every group. */
  lemma StripKeepsNames(ts: seq<Token>)
    ensures Names(StripSlashes(ts)) == Names(ts)
  {
    var x, m, y := SlashSplit(ts);
    NamesAppend(x + m, y);
    NamesAppend(x, m);
    NamesOfSlashes(x);
    NamesOfSlashes(y);
  }

  /** A compiled pattern is the slash-stripped path with one distinct,
      identifier-named group per placeholder. */
  lemma CompileText(path: string)
    requires Compile(path).Ok?
    ensures Render(Compile(path).value) == StripChars(path, Slash)
    ensures Names(Compile(path).value) == Names(Scan(path))
  {
    RenderStrip(Scan(path));
    RenderScan(path);
    StripKeepsNames(Scan(path));
  }

  /** Compilation fails exactly on a placeholder name that is not an
      identifier or that is used twice. */
  lemma CompileErrors(path: string)
    ensures Compile(path).Err? ==> Compile(path).error == PatternError
    ensures Compile(path).Ok? ==>
              NoDuplicates(Names(Compile(path).value))
              && forall i :: 0 <= i < |Names(Compile(path).value)| ==> IsIdentifier(Names(Compile(path).value)[i])
  {
    if Compile(path).Ok? {
      StripKeepsNames(Scan(path));
    }
  }

  /** The string a pattern accepts with the given group values. */
  function Fill(ts: seq<Token>, caps: seq<string>): string
    requires |caps| == CapCount(ts)
    decreases |ts|
  {
    if ts == [] then ""
    else match ts[0]
      case Lit(c) => [c] + Fill(ts[1..], caps)
      case Cap(_) => caps[0] + Fill(ts[1..], caps[1..])
  }

  /** `caps` are group values under which the pattern matches `s` exactly:
      one non-empty value per group (`.+`). */
  predicate Fills(ts: seq<Token>, s: string, caps: seq<string>) {
    |caps| == CapCount(ts) && (forall i :: 0 <= i < |caps| ==> caps[i] != []) && Fill(ts, caps) == s
  }

  /** `re.match('^' + pattern + '$', s).groups()`: Python's backtracking
      search gives the first group the longest value that lets the rest of
      the pattern match, then the second, and so on. */
  function Greedy(ts: seq<Token>, s: string): Option<seq<string>>
    decreases |ts|, |s| + 1
  {
    if ts == [] then (if s == [] then Some([]) else None)
    else match ts[0]
      case Lit(c) => if s != [] && s[0] == c then Greedy(ts[1..], s[1..]) else None
      case Cap(_) => TryCap(ts, s, |s|)
  }

  /** Tries values of length `k`, `k - 1`, ..., 1 for the group `ts[0]`. */
  function TryCap(ts: seq<Token>, s: string, k: nat): (r: Option<seq<string>>)
    requires ts != [] && k <= |s|
    ensures r.Some? ==> r.value != []
    decreases |ts|, k
  {
    if k == 0 then None
    else match Greedy(ts[1..], s[k..])
      case Some(rest) => Some([s[..k]] + rest)
      case None => TryCap(ts, s, k - 1)
  }

  lemma FillCons(ts: seq<Token>, caps: seq<string>)
    requires ts != [] && |caps| == CapCount(ts)
    ensures ts[0].Lit? ==> |caps| == CapCount(ts[1..]) && Fill(ts, caps) == [ts[0].c] + Fill(ts[1..], caps)
    ensures ts[0].Cap? ==> caps != [] && |caps[1..]| == CapCount(ts[1..])
                           && Fill(ts, caps) == caps[0] + Fill(ts[1..], caps[1..])
  {
  }

  /** What the matcher returns are group values under which the pattern
      matches. */
  lemma {:induction false} GreedySound(ts: seq<Token>, s: string)
    requires Greedy(ts, s).Some?
    ensures Fills(ts, s, Greedy(ts, s).value)
    decreases |ts|, |s| + 1
  {
    if ts != [] {
      match ts[0]
      case Lit(c) =>
        GreedySound(ts[1..], s[1..]);
        assert s == [c] + s[1..];
      case Cap(_) =>
        TryCapSound(ts, s, |s|);
    }
  }

  lemma {:induction false} TryCapSound(ts: seq<Token>, s: string, k: nat)
    requires ts != [] && ts[0].Cap? && k <= |s|
    requires TryCap(ts, s, k).Some?
    ensures Fills(ts, s, TryCap(ts, s, k).value)
    decreases |ts|, k
  {
    match Greedy(ts[1..], s[k..])
    case Some(rest) =>
      GreedySound(ts[1..], s[k..]);
      var caps := [s[..k]] + rest;
      assert caps[1..] == rest;
      assert s == s[..k] + s[k..];
      forall i | 0 <= i < |caps| ensures caps[i] != [] {
        if i > 0 { assert caps[i] == rest[i - 1]; }
      }
    case None =>
      TryCapSound(ts, s, k - 1);
  }

  /** The search reaches every length from `k` down to the longest that lets
      the rest match, and never picks a shorter one. */
  lemma {:induction false} TryCapReaches(ts: seq<Token>, s: string, k: nat, j: nat)
    requires ts != [] && 1 <= j <= k <= |s|
    requires Greedy(ts[1..], s[j..]).Some?
    ensures TryCap(ts, s, k).Some? && j <= |TryCap(ts, s, k).value[0]|
    decreases k
  {
    if Greedy(ts[1..], s[k..]).None? {
      TryCapReaches(ts, s, k - 1, j);
    }
  }

  /** Every string the pattern accepts under some group values is matched. */
  lemma {:induction false} GreedyComplete(ts: seq<Token>, s: string, caps: seq<string>)
    requires Fills(ts, s, caps)
    ensures Greedy(ts, s).Some?
    decreases |ts|
  {
    if ts != [] {
      FillCons(ts, caps);
      match ts[0]
      case Lit(c) =>
        assert s[1..] == Fill(ts[1..], caps);
        GreedyComplete(ts[1..], s[1..], caps);
      case Cap(_) =>
        var j := |caps[0]|;
        assert caps[0] == caps[..1][0];
        assert s[j..] == Fill(ts[1..], caps[1..]);
        forall i | 0 <= i < |caps[1..]| ensures caps[1..][i] != [] {
          assert caps[1..][i] == caps[i + 1];
        }
        GreedyComplete(ts[1..], s[j..], caps[1..]);
        TryCapReaches(ts, s, |s|, j);
    }
  }

  /** Greedy maximality: the first group's value is at least as long as
      under any other way the pattern matches. */
  lemma GreedyLongest(ts: seq<Token>, s: string, caps: seq<string>)
    requires ts != [] && ts[0].Cap? && Fills(ts, s, caps)
    ensures Greedy(ts, s).Some? && |caps[0]| <= |Greedy(ts, s).value[0]|
  {
    FillCons(ts, caps);
    var j := |caps[0]|;
    assert s[j..] == Fill(ts[1..], caps[1..]);
    forall i | 0 <= i < |caps[1..]| ensures caps[1..][i] != [] {
      assert caps[1..][i] == caps[i + 1];
    }
    GreedyComplete(ts[1..], s[j..], caps[1..]);
    TryCapReaches(ts, s, |s|, j);
  }

  /** The compiled pattern of `path` matches `s` exactly when `s` is the
      slash-stripped path with every placeholder replaced by non-empty text. */
  lemma CompiledMatches(path: string, s: string, caps: seq<string>)
    requires Compile(path).Ok?
    ensures Render(Compile(path).value) == StripChars(path, Slash)
    ensures Greedy(Compile(path).value, s).Some? ==> Fills(Compile(path).value, s, Greedy(Compile(path).value, s).value)
    ensures Fills(Compile(path).value, s, caps) ==> Greedy(Compile(path).value, s).Some?
  {
    CompileText(path);
    if Greedy(Compile(path).value, s).Some? {
      GreedySound(Compile(path).value, s);
    }
    if Fills(Compile(path).value, s, caps) {
      GreedyComplete(Compile(path).value, s, caps);
    }
  }

  /** `match.groupdict()`: each group name with its value. */
  function GroupDict(ts: seq<Token>, caps: seq<string>): map<string, string>
    requires |caps| == CapCount(ts)
    decreases |ts|
  {
    if ts == [] then map[]
    else match ts[0]
      case Lit(_) => GroupDict(ts[1..], caps)
      case Cap(n) => GroupDict(ts[1..], caps[1..])[n := caps[0]]
  }

  /** With distinct group names, the group dictionary maps each name to its
      own value and holds nothing else. */
  lemma {:induction false} GroupDictLookup(ts: seq<Token>, caps: seq<string>)
    requires |caps| == CapCount(ts) && NoDuplicates(Names(ts))
    ensures forall k :: k in GroupDict(ts, caps) <==> k in Names(ts)
    ensures forall i :: 0 <= i < |caps| ==> GroupDict(ts, caps)[Names(ts)[i]] == caps[i]
    decreases |ts|
  {
    if ts != [] {
      var names := Names(ts);
      var rest := Names(ts[1..]);
      match ts[0]
      case Lit(_) =>
        assert names == rest;
        GroupDictLookup(ts[1..], caps);
      case Cap(n) =>
        assert names == [n] + rest;
        assert NoDuplicates(rest) by {
          forall i, j | 0 <= i < j < |rest| ensures rest[i] != rest[j] {
            assert rest[i] == names[i + 1] && rest[j] == names[j + 1];
          }
        }
        GroupDictLookup(ts[1..], caps[1..]);
        var d := GroupDict(ts[1..], caps[1..]);
        forall i | 0 <= i < |rest| ensures rest[i] != n {
          assert rest[i] == names[i + 1] && names[0] == n;
        }
        forall i | 0 <= i < |caps| ensures GroupDict(ts, caps)[names[i]] == caps[i] {
          if i > 0 {
            assert names[i] == rest[i - 1];
            assert caps[i] == caps[1..][i - 1];
          }
        }
    }
  }
}
