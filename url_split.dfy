/**
 * `urllib.parse.urlparse`, which the downloader uses to split a resource URL
 * into the components of section 3 of RFC 3986: scheme, authority (netloc),
 * path, query and fragment, plus the `;params` Python splits off the last
 * path segment for the schemes that use them.
 */
module UrlSplit {
  import opened PyText

  datatype UrlParts = UrlParts(
    scheme: string, netloc: string, path: string, params: string, query: string, fragment: string)

  predicate IsAsciiLetter(c: char) { 'a' <= c <= 'z' || 'A' <= c <= 'Z' }

  /** Letters, digits, `+`, `-` and `.`: the characters allowed in a scheme name. */
  predicate IsSchemeChar(c: char) { IsAsciiLetter(c) || IsDigit(c) || c == '+' || c == '-' || c == '.' }

  predicate IsSchemeName(s: string) {
    |s| > 0 && IsAsciiLetter(s[0]) && forall k :: 0 <= k < |s| ==> IsSchemeChar(s[k])
  }

  /** The schemes whose last path segment may carry `;params`. */
  const UsesParams: set<string> := {
    "", "ftp", "hdl", "prospero", "http", "imap", "https", "shttp", "rtsp", "rtspu",
    "sip", "sips", "mms", "sftp", "tel"
  }

  /** The scheme (lower-cased) and the rest, when the text before the first `:` is a scheme name. */
  function SplitScheme(url: string): (string, string) {
    var i := IndexOf(url, ':');
    if 0 < i < |url| && IsSchemeName(url[..i]) then (Lower(url[..i]), url[i + 1..]) else ("", url)
  }

  /** The authority runs up to the first `/`, `?` or `#`. */
  function SplitNetloc(s: string): (string, string) {
    var delim := IndexOfAny(s, {'/', '?', '#'});
    (s[..delim], s[delim..])
  }

  /** `urllib.parse.urlsplit`. */
  function Split(url: string): UrlParts {
    var (scheme, rest) := SplitScheme(url);
    SplitHierarchy(scheme, rest)
  }

  /** What follows the scheme: an optional `//authority`, then path, query and fragment. */
  function SplitHierarchy(scheme: string, rest: string): UrlParts {
    var (netloc, tail) := if |rest| >= 2 && rest[0] == '/' && rest[1] == '/' then SplitNetloc(rest[2..]) else ("", rest);
    SplitTail(scheme, netloc, tail)
  }

  /** The fragment starts at the first `#`, the query at the first `?` before it. */
  function SplitTail(scheme: string, netloc: string, tail: string): UrlParts {
    var fi := IndexOf(tail, '#');
    var beforeFragment := tail[..fi];
    var qi := IndexOf(beforeFragment, '?');
    UrlParts(scheme, netloc, beforeFragment[..qi], "",
             if qi < |beforeFragment| then beforeFragment[qi + 1..] else "",
             if fi < |tail| then tail[fi + 1..] else "")
  }

  /** Path and params: the params start at the first `;` after the last `/`. */
  function SplitParams(path: string): (string, string) {
    var slash := RFind(path, '/');
    var i := if slash >= 0 then slash + IndexOf(path[slash..], ';') else IndexOf(path, ';');
    if i < |path| then (path[..i], path[i + 1..]) else (path, "")
  }

  /** `urllib.parse.urlparse`. */
  function Parse(url: string): UrlParts {
    var p := Split(url);
    if p.scheme in UsesParams && ';' in p.path then
      var (path, params) := SplitParams(p.path);
      p.(path := path, params := params)
    else p
  }

  /** The components that name the resource on its server: everything but scheme and fragment. */
  function Location(p: UrlParts): (string, string, string) {
    (p.netloc, p.path, p.query)
  }

  lemma SplitSchemeOf(name: string, rest: string)
    requires IsSchemeName(name)
    ensures SplitScheme(name + ":" + rest) == (Lower(name), rest)
  {
    var url := name + ":" + rest;
    assert ':' !in name by {
      forall k | 0 <= k < |name| ensures name[k] != ':' { assert IsSchemeChar(name[k]); }
    }
    assert url == name + (":" + rest);
    assert (":" + rest)[0] == ':';
    IndexOfAppend(name, ":" + rest, ':');
    assert url[..|name|] == name;
    assert url[|name| + 1..] == rest;
  }

  /**
   * Two URLs that differ only in their scheme name name the same location,
   * provided both schemes agree on whether they use `;params` (as `http` and `https` do).
   */
  lemma {:induction false} LocationIgnoresScheme(s1: string, s2: string, rest: string)
    requires IsSchemeName(s1) && IsSchemeName(s2)
    requires (Lower(s1) in UsesParams) == (Lower(s2) in UsesParams)
    ensures Location(Parse(s1 + ":" + rest)) == Location(Parse(s2 + ":" + rest))
  {
    SplitSchemeOf(s1, rest);
    SplitSchemeOf(s2, rest);
  }

  lemma SplitSchemeWithFragment(u: string, f: string)
    requires '#' !in u
    ensures SplitScheme(u + "#" + f).0 == SplitScheme(u).0
    ensures SplitScheme(u + "#" + f).1 == SplitScheme(u).1 + "#" + f
  {
    var t := "#" + f;
    assert u + "#" + f == u + t;
    IndexOfAppend(u, t, ':');
    var i := IndexOf(u, ':');
    if i < |u| {
      CutBeforeEnd(u, t, i);
      CutBeforeEnd(u, t, i + 1);
    } else {
      assert t[0] == '#';
      var j := IndexOf(u + t, ':');
      if j < |u + t| {
        HashBlocksScheme(u + t, j, |u|);
      }
    }
  }

  /** A `#` inside a prefix keeps it from being a scheme name. */
  lemma HashBlocksScheme(w: string, j: nat, n: nat)
    requires n < j <= |w| && w[n] == '#'
    ensures !IsSchemeName(w[..j])
  {
    assert w[..j][n] == '#';
  }

  lemma SplitNetlocWithFragment(s: string, f: string)
    ensures SplitNetloc(s + "#" + f).0 == SplitNetloc(s).0
    ensures SplitNetloc(s + "#" + f).1 == SplitNetloc(s).1 + "#" + f
  {
    var cs := {'/', '?', '#'};
    var t := "#" + f;
    assert s + "#" + f == s + t;
    IndexOfAnyBeforeStop(s, t, cs);
    var d := IndexOfAny(s, cs);
    CutBeforeEnd(s, t, d);
    assert s[d..] + "#" + f == s[d..] + t;
  }

  lemma SplitTailWithFragment(scheme: string, netloc: string, tail: string, f: string)
    requires '#' !in tail
    ensures SplitTail(scheme, netloc, tail + "#" + f) == SplitTail(scheme, netloc, tail).(fragment := f)
  {
    var w := tail + "#" + f;
    assert w == tail + ("#" + f);
    assert ("#" + f)[0] == '#';
    IndexOfAppend(tail, "#" + f, '#');
    assert IndexOf(tail, '#') == |tail|;
    var fi := IndexOf(w, '#');
    assert fi == |tail|;
    assert w[..fi] == tail;
    assert w[fi + 1..] == f;
    assert tail[..IndexOf(tail, '#')] == tail;
  }

  lemma SplitHierarchyWithFragment(scheme: string, rest: string, f: string)
    requires '#' !in rest
    ensures SplitHierarchy(scheme, rest + "#" + f) == SplitHierarchy(scheme, rest).(fragment := f)
  {
    var w := rest + "#" + f;
    var hasNet := |rest| >= 2 && rest[0] == '/' && rest[1] == '/';
    assert hasNet == (|w| >= 2 && w[0] == '/' && w[1] == '/') by {
      if |rest| < 2 && |w| >= 2 { assert w[|rest|] == '#'; }
    }
    if hasNet {
      assert w[2..] == rest[2..] + "#" + f;
      SplitNetlocWithFragment(rest[2..], f);
      var d := IndexOfAny(rest[2..], {'/', '?', '#'});
      assert '#' !in rest[2..][d..];
      SplitTailWithFragment(scheme, rest[2..][..d], rest[2..][d..], f);
    } else {
      SplitTailWithFragment(scheme, "", rest, f);
    }
  }

  /** Appending a fragment to a URL that has none changes only the fragment. */
  lemma {:induction false} FragmentOnlyChangesFragment(u: string, f: string)
    requires '#' !in u
    ensures Parse(u + "#" + f) == Parse(u).(fragment := f)
  {
    SplitSchemeWithFragment(u, f);
    var rest := SplitScheme(u).1;
    assert '#' !in rest by {
      assert rest == u || rest == u[IndexOf(u, ':') + 1..];
    }
    SplitHierarchyWithFragment(SplitScheme(u).0, rest, f);
  }
}
