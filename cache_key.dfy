/**
 * The cache path the downloader derives from a resource URL
 * (rowgenerators/appurl/web/download.py, `_download_with_lock`, lines 165-184):
 * `netloc/path` with the path's slashes stripped from both ends, and, when the URL
 * has a query, the SHA-224 hex digest of the query inserted as a directory just
 * before the last path component.
 *
 * SHA-224 itself is not modelled: the caller supplies it as `sha224`, and the
 * properties that need it assume only that it yields 56 lower-case hex digits.
 */
module CacheKey {
  import opened PyText
  import UrlSplit

  /** What `hashlib.sha224(...).hexdigest()` yields: 56 lower-case hex digits. */
  predicate IsHexDigest(h: string) {
    |h| == 56 && forall k :: 0 <= k < |h| ==> IsDigit(h[k]) || 'a' <= h[k] <= 'f'
  }

  /** The key built from the three components that name a resource on its server. */
  function KeyOf(netloc: string, path: string, query: string, sha224: string -> string): string {
    var plain := Join(netloc, Strip(path, {'/'}));
    if query != "" then Join(Join(Dirname(plain), sha224(query)), Basename(plain)) else plain
  }

  /** The cache key of a resource URL: backslashes become `/`, then the URL is split and keyed. */
  function Key(url: string, sha224: string -> string): string {
    var parsed := UrlSplit.Parse(ReplaceChar(url, '\\', '/'));
    KeyOf(parsed.netloc, parsed.path, parsed.query, sha224)
  }

  lemma HexDigestHasNoSlash(h: string)
    requires IsHexDigest(h)
    ensures '/' !in h && h != []
  {
    assert forall k :: 0 <= k < |h| ==> h[k] != '/';
  }

  /** The part of the key that comes from netloc and path: `netloc/path` with no slash at the join. */
  lemma PlainKeyShape(netloc: string, path: string)
    requires '/' !in netloc
    ensures var p := Strip(path, {'/'});
            Join(netloc, p) == if netloc == "" then p else netloc + "/" + p
    ensures var plain := Join(netloc, Strip(path, {'/'}));
            plain == [] || plain[0] != '/'
  {
    var p := Strip(path, {'/'});
    assert p == [] || p[0] != '/' by {
      var l := LStrip(path, {'/'});
      if p != [] { assert p[0] == l[0]; }
    }
    if netloc != "" {
      assert netloc[|netloc| - 1] != '/';
      assert (netloc + "/" + p)[0] == netloc[0];
    }
  }

  /** Without a query the key is the netloc, a slash, and the path without its outer slashes. */
  lemma {:induction false} KeyWithoutQuery(netloc: string, path: string, sha224: string -> string)
    requires '/' !in netloc && netloc != ""
    ensures KeyOf(netloc, path, "", sha224) == netloc + "/" + Strip(path, {'/'})
  {
    PlainKeyShape(netloc, path);
  }

  /**
   * With a query the digest becomes one more directory right above the last
   * component: the key is `dirname/digest/basename` of the query-less key, so
   * the file name (and its extension) is unchanged.
   */
  lemma {:induction false} KeyWithQuery(netloc: string, path: string, query: string, sha224: string -> string)
    requires '/' !in netloc && query != ""
    requires IsHexDigest(sha224(query))
    ensures var plain := Join(netloc, Strip(path, {'/'}));
            var d := Dirname(plain);
            KeyOf(netloc, path, query, sha224)
              == (if d == "" then "" else d + "/") + sha224(query) + "/" + Basename(plain)
    ensures Basename(KeyOf(netloc, path, query, sha224)) == Basename(Join(netloc, Strip(path, {'/'})))
  {
    var plain := Join(netloc, Strip(path, {'/'}));
    PlainKeyShape(netloc, path);
    DirnameOfRelative(plain);
    HexDigestHasNoSlash(sha224(query));
    assert KeyOf(netloc, path, query, sha224) == Join(Join(Dirname(plain), sha224(query)), Basename(plain));
    KeyAssembly(Dirname(plain), sha224(query), Basename(plain));
  }

  /** Joining a directory, a digest and a base name, none with a slash at a join, puts one slash between each. */
  lemma KeyAssembly(d: string, h: string, b: string)
    requires d == [] || (d[0] != '/' && d[|d| - 1] != '/')
    requires '/' !in h && h != [] && '/' !in b
    ensures Join(Join(d, h), b) == (if d == "" then "" else d + "/") + h + "/" + b
    ensures Basename(Join(Join(d, h), b)) == b
  {
    JoinWithoutSlashes(d, h);
    var dh := Join(d, h);
    assert dh[|dh| - 1] == h[|h| - 1];
    assert b == [] || b[0] != '/' by { assert '/' !in b; }
    JoinWithoutSlashes(dh, b);
    BasenameAfterSlash(dh, b);
  }

  lemma JoinWithoutSlashes(a: string, b: string)
    requires a == [] || a[|a| - 1] != '/'
    requires b == [] || b[0] != '/'
    ensures Join(a, b) == if a == [] then b else a + "/" + b
  {
  }

  /** Two different queries on the same path get different keys, when their digests differ. */
  lemma {:induction false} KeySeparatesQueries(netloc: string, path: string, q1: string, q2: string, sha224: string -> string)
    requires '/' !in netloc && q1 != "" && q2 != ""
    requires IsHexDigest(sha224(q1)) && IsHexDigest(sha224(q2))
    requires sha224(q1) != sha224(q2)
    ensures KeyOf(netloc, path, q1, sha224) != KeyOf(netloc, path, q2, sha224)
  {
    KeyWithQuery(netloc, path, q1, sha224);
    KeyWithQuery(netloc, path, q2, sha224);
    var plain := Join(netloc, Strip(path, {'/'}));
    var d := Dirname(plain);
    var pre := if d == "" then "" else d + "/";
    DigestPosition(pre, sha224(q1), Basename(plain));
    DigestPosition(pre, sha224(q2), Basename(plain));
  }

  lemma DigestPosition(pre: string, h: string, b: string)
    ensures (pre + h + "/" + b)[|pre|..|pre| + |h|] == h
  {
  }

  /** A query never shares a key with the same path without a query. */
  lemma {:induction false} KeySeparatesQueryFromNone(netloc: string, path: string, query: string, sha224: string -> string)
    requires '/' !in netloc && query != ""
    requires IsHexDigest(sha224(query))
    ensures KeyOf(netloc, path, query, sha224) != KeyOf(netloc, path, "", sha224)
  {
    KeyWithQuery(netloc, path, query, sha224);
    PlainKeyShape(netloc, path);
    var plain := Join(netloc, Strip(path, {'/'}));
    assert KeyOf(netloc, path, "", sha224) == plain;
    var h := sha224(query);
    HexDigestHasNoSlash(h);
    QueryKeyDiffersFromPlain(plain, h);
  }

  /** Inserting a slash-free, non-empty directory before the basename always changes a relative path. */
  lemma QueryKeyDiffersFromPlain(plain: string, h: string)
    requires plain == [] || plain[0] != '/'
    requires '/' !in h && h != []
    ensures var d := Dirname(plain);
            (if d == "" then "" else d + "/") + h + "/" + Basename(plain) != plain
  {
    var d := Dirname(plain);
    var b := Basename(plain);
    var k := (if d == "" then "" else d + "/") + h + "/" + b;
    if plain != [] && '/' in plain {
      var n := DirnameBasenameSplit(plain);
      assert k == d + "/" + h + "/" + b;
      if n == 1 {
        assert |k| == |plain| + |h| + 1;
      } else {
        assert plain[|d| + 1] == '/';
        assert k[|d| + 1] == h[0];
      }
    } else {
      assert RFind(plain, '/') == -1;
      BasenameSuffix(plain);
      assert b == plain && d == "";
      assert |k| == |plain| + |h| + 1;
    }
  }

  /** A relative path with a slash is its dirname, a run of slashes, and its basename. */
  lemma DirnameBasenameSplit(p: string) returns (n: nat)
    requires p != [] && p[0] != '/' && '/' in p
    ensures n >= 1 && |Dirname(p)| + n <= |p|
    ensures p == Dirname(p) + p[|Dirname(p)|..|Dirname(p)| + n] + Basename(p)
    ensures forall k :: |Dirname(p)| <= k < |Dirname(p)| + n ==> p[k] == '/'
  {
    var i := RFind(p, '/') + 1;
    var head := p[..i];
    assert head[0] == p[0];
    assert !AllSlashes(head);
    var d := RStrip(head, {'/'});
    assert Dirname(p) == d;
    assert head[i - 1] == '/';
    n := i - |d|;
    BasenameSuffix(p);
    assert d == p[..|d|];
    ThreeParts(p, |d|, i);
    forall k | |d| <= k < i
      ensures p[k] == '/'
    {
      assert head[k] == p[k];
    }
  }

  lemma ThreeParts(p: string, a: nat, b: nat)
    requires a <= b <= |p|
    ensures p == p[..a] + p[a..b] + p[b..]
  {
  }

  /** The authority component never contains a slash. */
  lemma NetlocHasNoSlash(url: string)
    ensures '/' !in UrlSplit.Parse(url).netloc
  {
    var rest := UrlSplit.SplitScheme(url).1;
    if |rest| >= 2 && rest[0] == '/' && rest[1] == '/' {
      var s := rest[2..];
      var d := IndexOfAny(s, {'/', '?', '#'});
      assert forall k :: 0 <= k < d ==> s[..d][k] == s[k];
    }
  }

  lemma ReplaceCharAppend(a: string, b: string)
    ensures ReplaceChar(a + b, '\\', '/') == ReplaceChar(a, '\\', '/') + ReplaceChar(b, '\\', '/')
  {
    assert forall k :: 0 <= k < |a + b| ==>
      ReplaceChar(a + b, '\\', '/')[k] == (ReplaceChar(a, '\\', '/') + ReplaceChar(b, '\\', '/'))[k];
  }

  /** `http://h/p` and `https://h/p` (or any two schemes alike in their use of `;params`) share a key. */
  lemma {:induction false} KeyIgnoresScheme(s1: string, s2: string, rest: string, sha224: string -> string)
    requires UrlSplit.IsSchemeName(s1) && UrlSplit.IsSchemeName(s2)
    requires (Lower(s1) in UrlSplit.UsesParams) == (Lower(s2) in UrlSplit.UsesParams)
    ensures Key(s1 + ":" + rest, sha224) == Key(s2 + ":" + rest, sha224)
  {
    var r := ReplaceChar(rest, '\\', '/');
    forall s | s == s1 || s == s2
      ensures ReplaceChar(s + ":" + rest, '\\', '/') == s + ":" + r
    {
      ReplaceCharAppend(s + ":", rest);
      assert ReplaceChar(s + ":", '\\', '/') == s + ":" by {
        forall k | 0 <= k < |s| ensures s[k] != '\\' { assert UrlSplit.IsSchemeChar(s[k]); }
      }
    }
    UrlSplit.LocationIgnoresScheme(s1, s2, r);
  }

  lemma HttpAndHttpsShareKey(rest: string, sha224: string -> string)
    ensures Key("http:" + rest, sha224) == Key("https:" + rest, sha224)
  {
    assert Lower("http") == "http" && Lower("https") == "https";
    assert "http:" + rest == "http" + ":" + rest;
    assert "https:" + rest == "https" + ":" + rest;
    KeyIgnoresScheme("http", "https", rest, sha224);
  }

  /** The fragment plays no part in the key. */
  lemma {:induction false} KeyIgnoresFragment(u: string, f: string, sha224: string -> string)
    requires '#' !in u
    ensures Key(u + "#" + f, sha224) == Key(u, sha224)
  {
    var ru := ReplaceChar(u, '\\', '/');
    var rf := ReplaceChar(f, '\\', '/');
    ReplaceCharAppend(u + "#", f);
    ReplaceCharAppend(u, "#");
    assert ReplaceChar("#", '\\', '/') == "#";
    assert '#' !in ru by {
      forall k | 0 <= k < |ru| ensures ru[k] != '#' { assert u[k] != '#'; }
    }
    UrlSplit.FragmentOnlyChangesFragment(ru, rf);
  }

  /** Every key is a relative path: it never starts with `/`. */
  lemma KeyIsRelative(url: string, sha224: string -> string)
    requires IsHexDigest(sha224(UrlSplit.Parse(ReplaceChar(url, '\\', '/')).query))
    ensures var k := Key(url, sha224); k == [] || k[0] != '/'
  {
    var parsed := UrlSplit.Parse(ReplaceChar(url, '\\', '/'));
    NetlocHasNoSlash(ReplaceChar(url, '\\', '/'));
    KeyOfIsRelative(parsed.netloc, parsed.path, parsed.query, sha224);
  }

  lemma KeyOfIsRelative(netloc: string, path: string, query: string, sha224: string -> string)
    requires '/' !in netloc
    requires query != "" ==> IsHexDigest(sha224(query))
    ensures var k := KeyOf(netloc, path, query, sha224); k == [] || k[0] != '/'
  {
    var plain := Join(netloc, Strip(path, {'/'}));
    if query != "" {
      KeyWithQuery(netloc, path, query, sha224);
      PlainKeyShape(netloc, path);
      DirnameOfRelative(plain);
      HexDigestHasNoSlash(sha224(query));
      QueryKeyIsRelative(Dirname(plain), sha224(query), Basename(plain));
    } else {
      assert KeyOf(netloc, path, query, sha224) == plain;
      PlainKeyShape(netloc, path);
    }
  }

  lemma QueryKeyIsRelative(d: string, h: string, b: string)
    requires d == [] || d[0] != '/'
    requires h != [] && h[0] != '/'
    ensures var k := (if d == "" then "" else d + "/") + h + "/" + b; k[0] != '/'
  {
    var k := (if d == "" then "" else d + "/") + h + "/" + b;
    if d == "" {
      assert k[0] == h[0];
    } else {
      assert k[0] == d[0];
    }
  }
}
