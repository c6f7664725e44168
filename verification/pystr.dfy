/** The Python `str` operations the routing core relies on, stated on
    `seq<char>`: strip, split, find, lower, join and `str(int)`. */
module PyStr {
  import opened Base

  /** Python's `str.isspace()` for one character. */
  predicate IsSpace(c: char) {
    ('\t' <= c <= '\r') || ('\U{1C}' <= c <= ' ') || c == '\U{85}' || c == '\U{A0}' || c == '\U{1680}'
    || ('\U{2000}' <= c <= '\U{200A}') || c == '\U{2028}' || c == '\U{2029}' || c == '\U{202F}'
    || c == '\U{205F}' || c == '\U{3000}'
  }

  /** What `str.strip()` with no argument removes. */
  const Whitespace: set<char> := set c: char | '\t' <= c <= '\U{3000}' && IsSpace(c)

  predicate AllIn(s: string, cs: set<char>) {
    forall i :: 0 <= i < |s| ==> s[i] in cs
  }

  /** How many leading characters of `s` belong to `cs`. */
  function Lead(s: string, cs: set<char>): (n: nat)
    ensures n <= |s|
    decreases |s|
  {
    if s != [] && s[0] in cs then 1 + Lead(s[1..], cs) else 0
  }

  /** How many trailing characters of `s` belong to `cs`. */
  function Trail(s: string, cs: set<char>): (n: nat)
    ensures n <= |s|
    decreases |s|
  {
    if s != [] && s[|s| - 1] in cs then 1 + Trail(s[..|s| - 1], cs) else 0
  }

  /** The leading run consists of characters of `cs` and cannot be extended. */
  lemma {:induction false} LeadRun(s: string, cs: set<char>)
    ensures forall i :: 0 <= i < Lead(s, cs) ==> s[i] in cs
    ensures Lead(s, cs) < |s| ==> s[Lead(s, cs)] !in cs
    decreases |s|
  {
    if s != [] && s[0] in cs {
      LeadRun(s[1..], cs);
      forall i | 1 <= i < Lead(s, cs) ensures s[i] in cs {
        assert s[i] == s[1..][i - 1];
      }
    }
  }

  /** The trailing run consists of characters of `cs` and cannot be extended. */
  lemma {:induction false} TrailRun(s: string, cs: set<char>)
    ensures forall i :: |s| - Trail(s, cs) <= i < |s| ==> s[i] in cs
    ensures Trail(s, cs) < |s| ==> s[|s| - Trail(s, cs) - 1] !in cs
    decreases |s|
  {
    if s != [] && s[|s| - 1] in cs {
      var init := s[..|s| - 1];
      TrailRun(init, cs);
      forall i | |s| - Trail(s, cs) <= i < |s| - 1 ensures s[i] in cs {
        assert s[i] == init[i];
      }
    }
  }

  /** A run of `cs` that cannot be extended is the leading run. */
  lemma {:induction false} LeadIs(s: string, cs: set<char>, n: nat)
    requires n <= |s|
    requires forall i :: 0 <= i < n ==> s[i] in cs
    requires n < |s| ==> s[n] !in cs
    ensures Lead(s, cs) == n
    decreases n
  {
    if n > 0 {
      LeadIs(s[1..], cs, n - 1);
    }
  }

  /** A run of `cs` at the end that cannot be extended is the trailing run. */
  lemma {:induction false} TrailIs(s: string, cs: set<char>, n: nat)
    requires n <= |s|
    requires forall i :: |s| - n <= i < |s| ==> s[i] in cs
    requires n < |s| ==> s[|s| - n - 1] !in cs
    ensures Trail(s, cs) == n
    decreases n
  {
    if n > 0 {
      var init := s[..|s| - 1];
      TrailIs(init, cs, n - 1);
    }
  }

  /** `s.strip(chars)`: the slice of `s` between its leading and trailing
      runs of `cs`; neither end of it is a character of `cs`. */
  function StripChars(s: string, cs: set<char>): (r: string)
    ensures r != [] ==> r[0] !in cs && r[|r| - 1] !in cs
  {
    var a := Lead(s, cs);
    var b := if |s| - Trail(s, cs) < a then a else |s| - Trail(s, cs);
    LeadRun(s, cs);
    TrailRun(s, cs);
    s[a..b]
  }

  /** `s.strip()` */
  function Strip(s: string): string {
    StripChars(s, Whitespace)
  }

  /** `s.strip(chars)` is the slice of `s` between its leading and trailing
      runs of `cs`. */
  lemma StripCharsSlice(s: string, cs: set<char>)
    ensures var a := Lead(s, cs);
            var r := StripChars(s, cs);
            a + |r| <= |s| && r == s[a..a + |r|]
            && AllIn(s[..a], cs) && AllIn(s[a + |r|..], cs)
  {
    LeadRun(s, cs);
    TrailRun(s, cs);
    var a := Lead(s, cs);
    var b := a + |StripChars(s, cs)|;
    forall i | 0 <= i < |s| - b ensures s[b..][i] in cs {
      assert s[b..][i] == s[b + i];
    }
  }

  /** The slice between a run of `cs` at the front and one at the back, when
      it neither starts nor ends with a character of `cs`, is the stripped text. */
  lemma StripCharsIs(s: string, cs: set<char>, a: nat, b: nat)
    requires a <= b <= |s|
    requires forall i :: 0 <= i < a ==> s[i] in cs
    requires forall i :: b <= i < |s| ==> s[i] in cs
    requires a < b ==> s[a] !in cs && s[b - 1] !in cs
    ensures StripChars(s, cs) == s[a..b]
  {
    if a < b {
      LeadIs(s, cs, a);
      TrailIs(s, cs, |s| - b);
    } else {
      LeadIs(s, cs, |s|);
      TrailRun(s, cs);
    }
  }

  /** Text that neither starts nor ends with a strippable character is left alone. */
  lemma StripCharsNoop(s: string, cs: set<char>)
    requires s != [] && s[0] !in cs && s[|s| - 1] !in cs
    ensures StripChars(s, cs) == s
  {
    StripCharsIs(s, cs, 0, |s|);
  }

  /** Stripping ignores a prefix of strippable characters. */
  lemma StripSkipsPrefix(w: string, x: string, cs: set<char>)
    requires AllIn(w, cs)
    ensures StripChars(w + x, cs) == StripChars(x, cs)
  {
    var a := Lead(x, cs);
    var r := StripChars(x, cs);
    var u := x[..a];
    var y := x[a + |r|..];
    StripParts(x, cs);
    AllInAppend(w, u, cs);
    PrependParts(w, x, u, r, y);
    StripMiddle(w + u, r, y, cs);
  }

  /** Text is its leading run, its stripped text and its trailing run. */
  lemma StripParts(x: string, cs: set<char>)
    ensures var a := Lead(x, cs);
            var r := StripChars(x, cs);
            && a + |r| <= |x|
            && x == x[..a] + r + x[a + |r|..]
            && AllIn(x[..a], cs) && AllIn(x[a + |r|..], cs)
  {
    StripCharsSlice(x, cs);
  }

  lemma PrependParts(w: string, x: string, u: string, r: string, y: string)
    requires x == u + r + y
    ensures w + x == (w + u) + r + y
  {
  }

  lemma AllInAppend(x: string, y: string, cs: set<char>)
    requires AllIn(x, cs) && AllIn(y, cs)
    ensures AllIn(x + y, cs)
  {
    forall i | 0 <= i < |x + y| ensures (x + y)[i] in cs {
      if i >= |x| { assert (x + y)[i] == y[i - |x|]; }
    }
  }


  /** Text between two runs of strippable characters is what stripping
      leaves, when it neither starts nor ends with one. */
  lemma StripMiddle(x: string, m: string, y: string, cs: set<char>)
    requires AllIn(x, cs) && AllIn(y, cs)
    requires m != [] ==> m[0] !in cs && m[|m| - 1] !in cs
    ensures StripChars(x + m + y, cs) == m
  {
    var s := x + m + y;
    forall i | 0 <= i < |x| ensures s[i] in cs {
      assert s[i] == x[i];
    }
    forall i | |x| + |m| <= i < |s| ensures s[i] in cs {
      assert s[i] == y[i - |x| - |m|];
    }
    if m != [] {
      assert s[|x|] == m[0] && s[|x| + |m| - 1] == m[|m| - 1];
    }
    StripCharsIs(s, cs, |x|, |x| + |m|);
    assert s[|x|..|x| + |m|] == m;
  }

  /** `s.rstrip(chars)` */
  function RStrip(s: string, cs: set<char>): string {
    s[..|s| - Trail(s, cs)]
  }

  /** Text followed by a run of strippable characters loses exactly that
      run, when the text does not itself end with one. */
  lemma RStripIs(x: string, y: string, cs: set<char>)
    requires AllIn(y, cs)
    requires x != [] ==> x[|x| - 1] !in cs
    ensures RStrip(x + y, cs) == x
  {
    var s := x + y;
    forall i | |s| - |y| <= i < |s| ensures s[i] in cs {
      assert s[i] == y[i - |x|];
    }
    if x != [] {
      assert s[|s| - |y| - 1] == x[|x| - 1];
    }
    TrailIs(s, cs, |y|);
    assert s[..|x|] == x;
  }

  /** Text that starts and ends with non-strippable characters survives
      stripping whole, after whatever the prefix keeps. */
  lemma StripAppend(v: string, t: string, cs: set<char>)
    requires t != [] && t[0] !in cs && t[|t| - 1] !in cs
    ensures StripChars(v + t, cs) == v[Lead(v, cs)..] + t
  {
    LeadPrefix(v, cs);
    StripAppendAt(v, t, Lead(v, cs), cs);
  }

  lemma StripAppendAt(v: string, t: string, a: nat, cs: set<char>)
    requires a <= |v| && AllIn(v[..a], cs) && (a < |v| ==> v[a] !in cs)
    requires t != [] && t[0] !in cs && t[|t| - 1] !in cs
    ensures StripChars(v + t, cs) == v[a..] + t
  {
    EndsOfAppend(v, t, a, cs);
    SplitAround(v, t, a);
    StripAppendParts(v + t, v[..a], v[a..] + t, cs);
  }

  lemma SplitAround(v: string, t: string, a: nat)
    requires a <= |v|
    ensures v + t == v[..a] + (v[a..] + t)
  {
    assert v == v[..a] + v[a..];
  }

  lemma EndsOfAppend(v: string, t: string, a: nat, cs: set<char>)
    requires a <= |v| && (a < |v| ==> v[a] !in cs)
    requires t != [] && t[0] !in cs && t[|t| - 1] !in cs
    ensures var m := v[a..] + t;
            m != [] && m[0] !in cs && m[|m| - 1] !in cs
  {
    var m := v[a..] + t;
    if a < |v| { assert m[0] == v[a]; } else { assert m[0] == t[0]; }
    assert m[|m| - 1] == t[|t| - 1];
  }

  lemma StripAppendParts(s: string, u: string, m: string, cs: set<char>)
    requires s == u + m
    requires AllIn(u, cs) && m != [] && m[0] !in cs && m[|m| - 1] !in cs
    ensures StripChars(s, cs) == m
  {
    assert s == u + m + [];
    StripMiddle(u, m, [], cs);
  }

  /** The leading run as a prefix. */
  lemma LeadPrefix(v: string, cs: set<char>)
    ensures AllIn(v[..Lead(v, cs)], cs)
    ensures Lead(v, cs) < |v| ==> v[Lead(v, cs)] !in cs
  {
    var a := Lead(v, cs);
    LeadRun(v, cs);
    forall i | 0 <= i < a ensures v[..a][i] in cs {
      assert v[..a][i] == v[i];
    }
  }

  /** A character outside `cs` stays inside `s.strip(chars)`, at its offset
      from the leading run. */
  lemma StripKeeps(s: string, cs: set<char>, i: nat)
    requires i < |s| && s[i] !in cs
    ensures Lead(s, cs) <= i < Lead(s, cs) + |StripChars(s, cs)|
    ensures StripChars(s, cs)[i - Lead(s, cs)] == s[i]
  {
    LeadRun(s, cs);
    TrailRun(s, cs);
    var a := Lead(s, cs);
    var b := |s| - Trail(s, cs);
    assert a <= i < b;
    assert StripChars(s, cs) == s[a..b];
  }

  /** Stripping adds no character: one absent from `s` is absent after. */
  lemma StripCharsOmits(s: string, cs: set<char>, c: char)
    requires c !in s
    ensures c !in StripChars(s, cs)
  {
    StripCharsSlice(s, cs);
    var a := Lead(s, cs);
    var r := StripChars(s, cs);
    forall k | 0 <= k < |r| ensures r[k] != c {
      assert r[k] == s[a + k];
    }
  }

  lemma SuffixOmits(s: string, a: nat, c: char)
    requires a <= |s| && c !in s
    ensures c !in s[a..]
  {
    forall k | 0 <= k < |s| - a ensures s[a..][k] != c {
      assert s[a..][k] == s[a + k];
    }
  }

  /** The first `c` of `s`, when `c` is not stripped, splits the stripped
      text into the part before it (from the leading run on) and the rest. */
  lemma StripSplitAt(s: string, cs: set<char>, c: char, i: nat)
    requires c !in cs && i < |s| && s[i] == c && c !in s[..i]
    ensures Lead(s, cs) <= i < Lead(s, cs) + |StripChars(s, cs)|
    ensures c !in s[Lead(s, cs)..i]
    ensures StripChars(s, cs)
            == s[Lead(s, cs)..i] + [c] + StripChars(s, cs)[i - Lead(s, cs) + 1..]
  {
    var a := Lead(s, cs);
    var r := StripChars(s, cs);
    StripKeeps(s, cs, i);
    StripCharsSlice(s, cs);
    InnerOmits(s, a, i, c);
    CutAt(s, a, r, i - a);
  }

  lemma InnerOmits(s: string, a: nat, i: nat, c: char)
    requires a <= i <= |s| && c !in s[..i]
    ensures c !in s[a..i]
  {
    assert s[..i][a..] == s[a..i];
    SuffixOmits(s[..i], a, c);
  }

  /** A slice `r` of `s` from `a` on, cut around its `k`-th character. */
  lemma CutAt(s: string, a: nat, r: string, k: nat)
    requires a + |r| <= |s| && r == s[a..a + |r|] && k < |r|
    ensures r == s[a..a + k] + [r[k]] + r[k + 1..]
  {
    assert r[..k] == s[a..a + k];
    assert r == r[..k] + [r[k]] + r[k + 1..];
  }

  /** `s.find(c)` as an index, or None for -1. */
  function Find(s: string, c: char): (r: Option<nat>)
    ensures r.None? <==> c !in s
    ensures r.Some? ==> r.value < |s| && s[r.value] == c && c !in s[..r.value]
    decreases |s|
  {
    if s == [] then None
    else if s[0] == c then Some(0)
    else match Find(s[1..], c)
      case None => None
      case Some(i) =>
        assert s[..i + 1] == [s[0]] + s[1..][..i];
        Some(i + 1)
  }

  /** `sep.join(parts)` */
  function Join(parts: seq<string>, sep: string): string
    decreases |parts|
  {
    if |parts| == 0 then ""
    else if |parts| == 1 then parts[0]
    else parts[0] + sep + Join(parts[1..], sep)
  }

  /** Joining one more part appends the separator and the part. */
  lemma {:induction false} JoinSnoc(parts: seq<string>, x: string, sep: string)
    requires parts != []
    ensures Join(parts + [x], sep) == Join(parts, sep) + sep + x
    decreases |parts|
  {
    if |parts| > 1 {
      JoinSnoc(parts[1..], x, sep);
      assert (parts + [x])[1..] == parts[1..] + [x];
    }
  }

  /** `s.split(c)` for a one-character separator: never empty, no part holds
      the separator, and the parts joined by it give back `s`. */
  function Split(s: string, c: char): (r: seq<string>)
    ensures |r| >= 1
    ensures forall i :: 0 <= i < |r| ==> c !in r[i]
    ensures Join(r, [c]) == s
    decreases |s|
  {
    match Find(s, c)
    case None => [s]
    case Some(i) =>
      var rest := Split(s[i + 1..], c);
      assert s == s[..i] + [c] + s[i + 1..];
      [s[..i]] + rest
  }

  /** Splitting undoes joining: the partner of Split. */
  lemma {:induction false} SplitJoin(parts: seq<string>, c: char)
    requires |parts| >= 1
    requires forall i :: 0 <= i < |parts| ==> c !in parts[i]
    ensures Split(Join(parts, [c]), c) == parts
    decreases |parts|
  {
    var s := Join(parts, [c]);
    if |parts| == 1 {
      assert s == parts[0];
    } else {
      var tail := Join(parts[1..], [c]);
      assert s == parts[0] + [c] + tail;
      SplitOnceAt(parts[0], c, tail);
      assert c in s by { assert s[|parts[0]|] == c; }
      SplitHead(s, c);
      SplitJoin(parts[1..], c);
      var r := Split(s, c);
      assert r == [r[0]] + r[1..];
      assert parts == [parts[0]] + parts[1..];
    }
  }

  /** `s.split(c, 1)` when it yields two parts; None when `c` does not occur. */
  function SplitOnce(s: string, c: char): (r: Option<(string, string)>)
    ensures r.None? <==> c !in s
    ensures r.Some? ==> c !in r.value.0 && s == r.value.0 + [c] + r.value.1
  {
    match Find(s, c)
    case None => None
    case Some(i) =>
      assert s == s[..i] + [c] + s[i + 1..];
      Some((s[..i], s[i + 1..]))
  }

  /** `s.split(c, 1)` cuts at the first occurrence of `c`. */
  lemma SplitOnceAt(a: string, c: char, b: string)
    requires c !in a
    ensures SplitOnce(a + [c] + b, c) == Some((a, b))
  {
    var s := a + [c] + b;
    assert s[|a|] == c;
    var i := Find(s, c).value;
    assert i == |a|;
    assert s[..i] == a;
    assert s[i + 1..] == b;
  }

  /** The first part of `s.split(c)` is what precedes the first `c`, and the
      other parts split the remainder. */
  lemma SplitHead(s: string, c: char)
    ensures c !in s ==> Split(s, c) == [s]
    ensures c in s ==> Split(s, c)[0] == SplitOnce(s, c).value.0
                       && Split(s, c)[1..] == Split(SplitOnce(s, c).value.1, c)
  {
  }

  /** The first and last characters of a join of non-empty parts are those of
      its first and last parts. */
  lemma {:induction false} JoinEnds(parts: seq<string>, sep: string)
    requires |parts| >= 1
    requires forall i :: 0 <= i < |parts| ==> parts[i] != []
    ensures Join(parts, sep) != []
    ensures Join(parts, sep)[0] == parts[0][0]
    ensures Join(parts, sep)[|Join(parts, sep)| - 1] == parts[|parts| - 1][|parts[|parts| - 1]| - 1]
    decreases |parts|
  {
    if |parts| > 1 {
      JoinEnds(parts[1..], sep);
    }
  }

  predicate IsUpper(c: char) { 'A' <= c <= 'Z' }

  function LowerChar(c: char): char {
    if IsUpper(c) then (c as int + 32) as char else c
  }

  /** `s.lower()` restricted to ASCII letters. */
  function Lower(s: string): (r: string)
    ensures |r| == |s|
    ensures forall i :: 0 <= i < |s| ==> !IsUpper(r[i])
    ensures forall i :: 0 <= i < |s| && !IsUpper(s[i]) ==> r[i] == s[i]
    ensures forall i :: 0 <= i < |s| && IsUpper(s[i]) ==> r[i] as int == s[i] as int + 32
  {
    seq(|s|, i requires 0 <= i < |s| => LowerChar(s[i]))
  }

  /** `s.replace(a, b)` for single characters. */
  function ReplaceChar(s: string, a: char, b: char): (r: string)
    ensures |r| == |s|
    ensures forall i :: 0 <= i < |s| ==> r[i] == (if s[i] == a then b else s[i])
  {
    seq(|s|, i requires 0 <= i < |s| => if s[i] == a then b else s[i])
  }

  predicate IsDigit(c: char) { '0' <= c <= '9' }

  predicate AllDigits(s: string) {
    forall i :: 0 <= i < |s| ==> IsDigit(s[i])
  }

  function DigitChar(d: nat): (c: char)
    requires d < 10
    ensures IsDigit(c)
  {
    ('0' as int + d) as char
  }

  function DigitValue(c: char): (d: nat)
    requires IsDigit(c)
    ensures d < 10
  {
    c as int - '0' as int
  }

  /** The value of a string of decimal digits (leading zeros allowed). */
  function DecimalValue(s: string): nat
    requires forall i :: 0 <= i < |s| ==> IsDigit(s[i])
    decreases |s|
  {
    if s == [] then 0 else DecimalValue(s[..|s| - 1]) * 10 + DigitValue(s[|s| - 1])
  }

  lemma DigitsExclude(s: string, c: char)
    requires AllDigits(s) && !IsDigit(c)
    ensures c !in s
  {
    forall k | 0 <= k < |s| ensures s[k] != c {
      assert IsDigit(s[k]);
    }
  }

  /** `str(n)` for a non-negative int: digits only, no leading zero. */
  function Decimal(n: nat): (r: string)
    ensures |r| >= 1
    ensures forall i :: 0 <= i < |r| ==> IsDigit(r[i])
    ensures |r| > 1 ==> r[0] != '0'
    decreases n
  {
    if n < 10 then [DigitChar(n)] else Decimal(n / 10) + [DigitChar(n % 10)]
  }

  /** Reading back the decimal rendering gives the number: the partner of Decimal. */
  lemma {:induction false} DecimalRoundTrip(n: nat)
    ensures DecimalValue(Decimal(n)) == n
    decreases n
  {
    if n >= 10 {
      var d := Decimal(n);
      assert d[..|d| - 1] == Decimal(n / 10);
      DecimalRoundTrip(n / 10);
    }
  }
}
