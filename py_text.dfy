/**
 * The Python `str`, `int` and `posixpath` operations the row generators and the
 * downloader are written with, stated over Dafny strings.
 */
module PyText {
  import opened Wrappers

  /** The characters `str.isspace()` (and so `str.strip()` and the `\s` class of `re`) treat as whitespace. */
  const Whitespace: set<char> := {
    '\t', '\n', '\U{B}', '\U{C}', '\r', '\U{1C}', '\U{1D}', '\U{1E}', '\U{1F}', ' ',
    '\U{85}', '\U{A0}', '\U{1680}', '\U{2000}', '\U{2001}', '\U{2002}', '\U{2003}',
    '\U{2004}', '\U{2005}', '\U{2006}', '\U{2007}', '\U{2008}', '\U{2009}', '\U{200A}',
    '\U{2028}', '\U{2029}', '\U{202F}', '\U{205F}', '\U{3000}'
  }

  predicate IsBlank(s: string) {
    forall k :: 0 <= k < |s| ==> s[k] in Whitespace
  }

  /** `str.find` for one character, except that "absent" is reported as `|s|` rather than -1. */
  function IndexOf(s: string, c: char): (r: nat)
    ensures r <= |s|
    ensures r < |s| ==> s[r] == c
    ensures forall k :: 0 <= k < r ==> s[k] != c
  {
    if s == [] then 0 else if s[0] == c then 0 else 1 + IndexOf(s[1..], c)
  }

  /** The first index holding any element of `cs` (a character, for strings), or `|s|`. */
  function IndexOfAny<T(==)>(s: seq<T>, cs: set<T>): (r: nat)
    ensures r <= |s|
    ensures r < |s| ==> s[r] in cs
    ensures forall k :: 0 <= k < r ==> s[k] !in cs
  {
    if s == [] then 0 else if s[0] in cs then 0 else 1 + IndexOfAny(s[1..], cs)
  }

  /** `str.rfind` for one character: the last index of `c`, or -1. */
  function RFind(s: string, c: char): (r: int)
    ensures -1 <= r < |s|
    ensures r >= 0 ==> s[r] == c
    ensures forall k :: r < k < |s| ==> s[k] != c
  {
    if s == [] then -1
    else if s[|s| - 1] == c then |s| - 1
    else RFind(s[..|s| - 1], c)
  }

  lemma IndexOfAppend(a: string, b: string, c: char)
    ensures IndexOf(a + b, c) == if c in a then IndexOf(a, c) else |a| + IndexOf(b, c)
  {
    var i := IndexOf(a + b, c);
    if c in a {
      var j := IndexOf(a, c);
      assert (a + b)[j] == c;
    } else {
      var j := IndexOf(b, c);
      if j < |b| { assert (a + b)[|a| + j] == c; }
      forall k | |a| <= k < |a| + j ensures (a + b)[k] != c { assert (a + b)[k] == b[k - |a|]; }
    }
  }

  /** Cutting `u + t` inside `u` leaves all of `t` in the second half. */
  lemma CutBeforeEnd(u: string, t: string, i: nat)
    requires i <= |u|
    ensures (u + t)[..i] == u[..i] && (u + t)[i..] == u[i..] + t
  {
  }

  /** A text that starts with a stop character ends the search at its front. */
  lemma {:induction false} IndexOfAnyBeforeStop(s: string, t: string, cs: set<char>)
    requires t != [] && t[0] in cs
    ensures IndexOfAny(s + t, cs) == IndexOfAny(s, cs)
  {
    if s == [] {
      assert s + t == t;
    } else {
      assert (s + t)[0] == s[0];
      if s[0] !in cs {
        assert (s + t)[1..] == s[1..] + t;
        IndexOfAnyBeforeStop(s[1..], t, cs);
      }
    }
  }

  /** `s.lstrip(chars)`: drop every leading character that is in `cs`. */
  function LStrip(s: string, cs: set<char>): (r: string)
    ensures |r| <= |s| && r == s[|s| - |r|..]
    ensures r == [] || r[0] !in cs
    ensures forall k :: 0 <= k < |s| - |r| ==> s[k] in cs
  {
    if s != [] && s[0] in cs then LStrip(s[1..], cs) else s
  }

  /** `s.rstrip(chars)`: drop every trailing character that is in `cs`. */
  function RStrip(s: string, cs: set<char>): (r: string)
    ensures |r| <= |s| && r == s[..|r|]
    ensures r == [] || r[|r| - 1] !in cs
    ensures forall k :: |r| <= k < |s| ==> s[k] in cs
  {
    if s != [] && s[|s| - 1] in cs then RStrip(s[..|s| - 1], cs) else s
  }

  /** `s.strip(chars)`. */
  function Strip(s: string, cs: set<char>): string {
    RStrip(LStrip(s, cs), cs)
  }

  /** `s.strip()` with no argument. */
  function StripSpace(s: string): string {
    Strip(s, Whitespace)
  }

  lemma StripUntouched(s: string, cs: set<char>)
    requires s == [] || (s[0] !in cs && s[|s| - 1] !in cs)
    ensures Strip(s, cs) == s
  {
  }

  /** `posixpath.join(a, b)`. */
  function Join(a: string, b: string): string {
    if |b| > 0 && b[0] == '/' then b
    else if a == [] || a[|a| - 1] == '/' then a + b
    else a + "/" + b
  }

  predicate AllSlashes(s: string) {
    forall k :: 0 <= k < |s| ==> s[k] == '/'
  }

  /** `posixpath.dirname(p)`. */
  function Dirname(p: string): string {
    var head := p[..RFind(p, '/') + 1];
    if head != [] && !AllSlashes(head) then RStrip(head, {'/'}) else head
  }

  /** `posixpath.basename(p)`: the characters after the last `/`, collected from the end. */
  function Basename(p: string): (r: string)
    ensures '/' !in r && |r| <= |p|
    decreases |p|
  {
    if p == [] || p[|p| - 1] == '/' then [] else Basename(p[..|p| - 1]) + [p[|p| - 1]]
  }

  /** The base name is what follows the last `/`. */
  lemma {:induction false} BasenameSuffix(p: string)
    ensures Basename(p) == p[RFind(p, '/') + 1..]
    decreases |p|
  {
    if p != [] && p[|p| - 1] != '/' {
      var q := p[..|p| - 1];
      BasenameSuffix(q);
      var i := RFind(q, '/') + 1;
      assert RFind(p, '/') + 1 == i;
      assert q[i..] + [p[|p| - 1]] == p[i..];
    }
  }

  /** A path that does not start with `/` has a dirname that is empty or ends in something other than `/`. */
  lemma DirnameOfRelative(p: string)
    requires p == [] || p[0] != '/'
    ensures Dirname(p) == [] || (Dirname(p)[0] != '/' && Dirname(p)[|Dirname(p)| - 1] != '/')
  {
    var head := p[..RFind(p, '/') + 1];
    if head != [] {
      assert head[0] == p[0];
      assert !AllSlashes(head);
      assert head[0] !in {'/'};
    }
  }

  lemma BasenameAfterSlash(x: string, b: string)
    requires '/' !in b
    ensures Basename(x + "/" + b) == b
  {
    var s := x + "/" + b;
    var i := RFind(s, '/');
    assert s[|x|] == '/';
    assert forall k :: |x| < k < |s| ==> s[k] == b[k - |x| - 1];
    assert i == |x|;
    assert s[i + 1..] == b;
    BasenameSuffix(s);
  }

  /** The directory part of `x/b` is `x` when `b` holds no slash and `x` does not end in one. */
  lemma DirnameAfterSlash(x: string, b: string)
    requires '/' !in b && x != [] && x[|x| - 1] != '/'
    ensures Dirname(x + "/" + b) == x
  {
    var s := x + "/" + b;
    assert s[|x|] == '/';
    assert forall k :: |x| < k < |s| ==> s[k] == b[k - |x| - 1];
    assert RFind(s, '/') == |x|;
    var head := s[..|x| + 1];
    assert head == x + "/";
    assert !AllSlashes(head) by { assert head[|x| - 1] != '/'; }
    assert RStrip(head, {'/'}) == RStrip(x, {'/'});
  }

  /** A relative path that is not empty has a strictly shorter, still relative, directory part. */
  lemma DirnameShrinks(p: string)
    requires p != [] && p[0] != '/'
    ensures |Dirname(p)| < |p|
    ensures Dirname(p) == [] || Dirname(p)[0] != '/'
  {
    DirnameOfRelative(p);
    var i := RFind(p, '/') + 1;
    var head := p[..i];
    if head != [] {
      assert head[0] == p[0];
      assert !AllSlashes(head);
      assert head[i - 1] == '/';
    }
  }

  /** `str.split(sep)` for a one-character separator: never empty, and the pieces hold no separator. */
  function SplitOn(s: string, sep: char): (parts: seq<string>)
    ensures |parts| >= 1
    ensures forall k :: 0 <= k < |parts| ==> sep !in parts[k]
    decreases |s|
  {
    var i := IndexOf(s, sep);
    if i == |s| then [s] else [s[..i]] + SplitOn(s[i + 1..], sep)
  }

  /** `sep.join(parts)`. */
  function JoinWith(parts: seq<string>, sep: char): string
    requires |parts| >= 1
  {
    if |parts| == 1 then parts[0] else parts[0] + [sep] + JoinWith(parts[1..], sep)
  }

  /** Splitting undoes joining when no piece holds the separator. */
  lemma {:induction false} SplitJoin(parts: seq<string>, sep: char)
    requires |parts| >= 1
    requires forall k :: 0 <= k < |parts| ==> sep !in parts[k]
    ensures SplitOn(JoinWith(parts, sep), sep) == parts
  {
    if |parts| == 1 {
      assert IndexOf(parts[0], sep) == |parts[0]|;
    } else {
      var rest := JoinWith(parts[1..], sep);
      assert JoinWith(parts, sep) == parts[0] + [sep] + rest;
      SplitFirst(parts[0], rest, sep);
      SplitJoin(parts[1..], sep);
      assert parts == [parts[0]] + parts[1..];
    }
  }

  /** The first piece of `p + sep + rest` is `p`, when `p` holds no separator. */
  lemma SplitFirst(p: string, rest: string, sep: char)
    requires sep !in p
    ensures SplitOn(p + [sep] + rest, sep) == [p] + SplitOn(rest, sep)
  {
    var s := p + [sep] + rest;
    assert s == p + ([sep] + rest);
    IndexOfAppend(p, [sep] + rest, sep);
    assert IndexOf([sep] + rest, sep) == 0;
    assert s[..|p|] == p;
    assert s[|p| + 1..] == rest;
  }

  predicate IsDigit(c: char) { '0' <= c <= '9' }

  function DigitChar(d: nat): (c: char)
    requires d < 10
    ensures IsDigit(c)
  {
    (48 + d) as char
  }

  /** `str(n)` for a natural number: its decimal digits. */
  function NatToString(n: nat): (s: string)
    ensures |s| >= 1
    ensures forall k :: 0 <= k < |s| ==> IsDigit(s[k])
  {
    if n < 10 then [DigitChar(n)] else NatToString(n / 10) + [DigitChar(n % 10)]
  }

  /** `str(i)` for an integer. */
  function IntToString(i: int): string {
    if i < 0 then "-" + NatToString(-i) else NatToString(i)
  }

  /** The value of a string of decimal digits. */
  function DigitsValue(ds: string): nat
    requires forall k :: 0 <= k < |ds| ==> IsDigit(ds[k])
  {
    if ds == [] then 0
    else
      var d := ds[|ds| - 1] as int - 48;
      assert IsDigit(ds[|ds| - 1]);
      DigitsValue(ds[..|ds| - 1]) * 10 + d
  }

  lemma {:induction false} DigitsOfNat(n: nat)
    ensures DigitsValue(NatToString(n)) == n
  {
    if n >= 10 {
      var s := NatToString(n);
      assert s[..|s| - 1] == NatToString(n / 10);
      DigitsOfNat(n / 10);
    }
  }

  /** `int(s)` on text: surrounding whitespace, an optional sign, then one or more decimal digits. */
  function ParseInt(s: string): Option<int> {
    var t := StripSpace(s);
    var negative := |t| > 0 && t[0] == '-';
    var body := if |t| > 0 && (t[0] == '-' || t[0] == '+') then t[1..] else t;
    if body != [] && forall k :: 0 <= k < |body| ==> IsDigit(body[k]) then
      Some(if negative then 0 - DigitsValue(body) else DigitsValue(body) as int)
    else None
  }

  lemma DigitNotSpace(c: char)
    requires IsDigit(c) || c == '-'
    ensures c !in Whitespace
  {
  }

  /** `int(str(i)) == i`. */
  lemma ParseIntToString(i: int)
    ensures ParseInt(IntToString(i)) == Some(i)
  {
    var s := IntToString(i);
    var n: nat := if i < 0 then -i else i;
    var ds := NatToString(n);
    assert s == if i < 0 then "-" + ds else ds;
    DigitNotSpace(s[0]);
    assert s[|s| - 1] == ds[|ds| - 1];
    DigitNotSpace(s[|s| - 1]);
    StripUntouched(s, Whitespace);
    assert StripSpace(s) == s;
    var body := if |s| > 0 && (s[0] == '-' || s[0] == '+') then s[1..] else s;
    assert body == ds by {
      if i < 0 { assert s[1..] == ds; } else { assert IsDigit(s[0]); }
    }
    DigitsOfNat(n);
  }

  function ToLowerChar(c: char): char {
    if 'A' <= c <= 'Z' then (c as int + 32) as char else c
  }

  /** `str.lower()` on ASCII text. */
  function Lower(s: string): (r: string)
    ensures |r| == |s|
  {
    seq(|s|, k requires 0 <= k < |s| => ToLowerChar(s[k]))
  }

  predicate StartsWith(s: string, prefix: string) {
    |prefix| <= |s| && s[..|prefix|] == prefix
  }

  predicate EndsWith(s: string, suffix: string) {
    |suffix| <= |s| && s[|s| - |suffix|..] == suffix
  }

  /** `s.replace(old, new)` for single characters. */
  function ReplaceChar(s: string, from: char, to: char): (r: string)
    ensures |r| == |s|
    ensures forall k :: 0 <= k < |s| ==> r[k] == if s[k] == from then to else s[k]
  {
    seq(|s|, k requires 0 <= k < |s| => if s[k] == from then to else s[k])
  }
}
