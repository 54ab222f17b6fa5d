/**
 * The cache the downloader writes into: a pyfilesystem-style tree of files and
 * directories addressed by relative `/`-separated paths, with the five
 * operations the downloader uses (`exists`, `makedirs`, `remove`,
 * `open(..., 'wb')` and `getsyspath`). The empty path is the root directory.
 *
 * Each operation is specified by a function of the old entries; the methods of
 * `Store` change `entries` exactly as those functions say.
 */
module CacheStore {
  import opened Wrappers
  import opened PyText

  datatype Entry = File(data: seq<bv8>) | Directory

  /** The `fs.errors` exceptions the store raises. */
  datatype StoreError =
    | DirectoryExpected(path: string)
    | DirectoryExists(path: string)
    | ResourceNotFound(path: string)
    | FileExpected(path: string)
    | NoSysPath(path: string)

  predicate Relative(p: string) { p == [] || p[0] != '/' }

  /** A path component that names something: not empty, not `.`, and without a `/`. */
  predicate IsName(s: string) { s != "" && s != "." && '/' !in s }

  /** The path of `name` inside the directory `dir` (the root when `dir` is empty). */
  function Child(dir: string, name: string): string {
    if dir == "" then name else dir + "/" + name
  }

  /** `done` extended by the component `seg`, unless `seg` is empty or `.`. */
  function Flush(done: string, seg: string): string {
    if seg == "" || seg == "." then done else Child(done, seg)
  }

  /** Resolving `p` left to right, with `done` resolved already and the component `seg` being read. */
  function Resolve(p: string, done: string, seg: string): string
    decreases |p|
  {
    if p == [] then Flush(done, seg)
    else if p[0] == '/' then Resolve(p[1..], Flush(done, seg), "")
    else Resolve(p[1..], done, seg + [p[0]])
  }

  /** A resolved path: relative, and with no `/` at its end. */
  predicate Tidy(d: string) {
    Relative(d) && (d == [] || d[|d| - 1] != '/')
  }

  lemma {:induction false} ResolveTidy(p: string, done: string, seg: string)
    requires Tidy(done) && '/' !in seg
    ensures Tidy(Resolve(p, done, seg))
    decreases |p|
  {
    if seg != "" && seg != "." && done != "" {
      assert (done + "/" + seg)[0] == done[0];
    }
    if p != [] {
      if p[0] == '/' {
        ResolveTidy(p[1..], Flush(done, seg), "");
      } else {
        ResolveTidy(p[1..], done, seg + [p[0]]);
      }
    }
  }

  /**
   * The path the store resolves `p` to: its components with the empty ones and
   * the `.` ones dropped, joined by single slashes, relative to the root. So a
   * leading or trailing `/` and a doubled `//` make no difference.
   */
  function Normpath(p: string): (r: string)
    ensures Relative(r) && (r == [] || r[|r| - 1] != '/')
  {
    ResolveTidy(p, "", "");
    Resolve(p, "", "")
  }

  /** A last component is read to its end and then flushed. */
  lemma {:induction false} ResolveLast(b: string, done: string, seg: string)
    requires '/' !in b
    ensures Resolve(b, done, seg) == Flush(done, seg + b)
    decreases |b|
  {
    if b != [] {
      ResolveLast(b[1..], done, seg + [b[0]]);
      assert seg + [b[0]] + b[1..] == seg + b;
    }
  }

  /** A slash flushes what was read before it, and resolving goes on from there. */
  lemma {:induction false} ResolveAfterSlash(x: string, y: string, done: string, seg: string)
    ensures Resolve(x + "/" + y, done, seg) == Resolve(y, Resolve(x, done, seg), "")
    decreases |x|
  {
    var p := x + "/" + y;
    if x == [] {
      assert p == "/" + y && p[1..] == y;
    } else {
      assert p[0] == x[0] && p[1..] == x[1..] + "/" + y;
      if x[0] == '/' {
        ResolveAfterSlash(x[1..], y, Flush(done, seg), "");
      } else {
        ResolveAfterSlash(x[1..], y, done, seg + [x[0]]);
      }
    }
  }

  /** A trailing slash resolves to the same path. */
  lemma NormpathTrailing(x: string)
    ensures Normpath(x + "/") == Normpath(x)
  {
    ResolveAfterSlash(x, "", "", "");
    assert x + "/" + "" == x + "/";
  }

  /** So do any number of trailing slashes. */
  lemma {:induction false} NormpathRStrip(h: string)
    ensures Normpath(RStrip(h, {'/'})) == Normpath(h)
    decreases |h|
  {
    if h != [] && h[|h| - 1] == '/' {
      var x := h[..|h| - 1];
      assert h == x + "/";
      NormpathRStrip(x);
      NormpathTrailing(x);
    }
  }

  /**
   * A path resolves to its directory part's resolution, extended by its base name
   * when that names something; a base name that is empty or `.` adds nothing.
   */
  lemma NormpathSplit(p: string)
    ensures Normpath(p) == if IsName(Basename(p)) then Child(Normpath(Dirname(p)), Basename(p)) else Normpath(Dirname(p))
  {
    BasenameSuffix(p);
    NormpathOfDirname(p);
    NormpathAtLastSlash(p);
  }

  /** Resolving a path is resolving what comes before its last slash, then flushing what follows. */
  lemma NormpathAtLastSlash(p: string)
    ensures var i := RFind(p, '/');
            Normpath(p) == Flush(if i < 0 then "" else Normpath(p[..i]), p[i + 1..])
  {
    var i := RFind(p, '/');
    if i < 0 {
      NoSlashAfter(p, i);
      ResolveLast(p, "", "");
    } else {
      NoSlashAfter(p, i);
      NormpathSlashName(p[..i], p[i + 1..]);
    }
  }

  /** A path splits at its last slash into what comes before, the slash, and a last component. */
  lemma NoSlashAfter(p: string, i: int)
    requires i == RFind(p, '/')
    ensures '/' !in p[i + 1..]
    ensures i >= 0 ==> p == p[..i] + "/" + p[i + 1..]
    ensures i < 0 ==> p[i + 1..] == p
  {
  }

  lemma NormpathSlashName(x: string, b: string)
    requires '/' !in b
    ensures Normpath(x + "/" + b) == Flush(Normpath(x), b)
  {
    ResolveAfterSlash(x, b, "", "");
    ResolveLast(b, Normpath(x), "");
  }

  /** The directory part resolves to what the part before the last slash resolves to. */
  lemma NormpathOfDirname(p: string)
    ensures Normpath(Dirname(p)) == if RFind(p, '/') < 0 then "" else Normpath(p[..RFind(p, '/')])
  {
    var i := RFind(p, '/');
    var h := p[..i + 1];
    if i >= 0 {
      assert h == p[..i] + "/";
      NormpathTrailing(p[..i]);
      NormpathRStrip(h);
    } else {
      assert h == [];
    }
  }

  /** `exists(p)`: the root always exists. */
  predicate Present(entries: map<string, Entry>, p: string) {
    Normpath(p) == [] || Normpath(p) in entries
  }

  /** The directory holding `p`. */
  function Parent(p: string): (r: string)
    requires p != [] && Relative(p)
    ensures |r| < |p| && Relative(r)
  {
    DirnameShrinks(p);
    Dirname(p)
  }

  /** `p`, its parent, its parent's parent, ... up to (and without) the root. */
  function Lineage(p: string): (line: seq<string>)
    requires Relative(p)
    ensures forall k :: 0 <= k < |line| ==> line[k] != [] && Relative(line[k])
    decreases |p|
  {
    if p == [] then [] else [p] + Lineage(Parent(p))
  }

  predicate IsDirIn(entries: map<string, Entry>, p: string) {
    p == [] || (p in entries && entries[p].Directory?)
  }

  /** A tree: the root is implicit and every entry sits in a directory. */
  predicate WellFormed(entries: map<string, Entry>) {
    && (forall q :: q in entries ==> q != [] && Relative(q))
    // Triggered on `Parent(q)` alone: a trigger on `q in entries` would feed
    // each parent back in and walk up forever.
    && (forall q {:trigger Parent(q)} :: q in entries && q != [] && Relative(q) ==> IsDirIn(entries, Parent(q)))
  }

  function AddDirs(entries: map<string, Entry>, dirs: seq<string>): map<string, Entry> {
    entries + map d | d in dirs :: Directory
  }

  /**
   * `makedirs(p, recreate)`: walk up from `p` to the first path that exists; a file
   * there is `DirectoryExpected`; `p` itself existing (or being the root) is
   * `DirectoryExists` unless `recreate`; otherwise every missing path on the way
   * becomes a directory.
   */
  function MakedirsOutcome(entries: map<string, Entry>, p: string, recreate: bool): Result<map<string, Entry>, StoreError>
    requires Relative(p)
  {
    var line := Lineage(p);
    var m := IndexOfAny(line, entries.Keys);
    if m < |line| && entries[line[m]].File? then Err(DirectoryExpected(p))
    else if m == 0 && !recreate then Err(DirectoryExists(p))
    else Ok(AddDirs(entries, line[..m]))
  }

  /** `remove(p)`: only a file can be removed. */
  function RemoveError(entries: map<string, Entry>, p: string): Option<StoreError> {
    if p != [] && p !in entries then Some(ResourceNotFound(p))
    else if p == [] || entries[p].Directory? then Some(FileExpected(p))
    else None
  }

  function AfterRemove(entries: map<string, Entry>, p: string): map<string, Entry> {
    if RemoveError(entries, p).None? then entries - {p} else entries
  }

  /** `open(p, 'wb')`: the parent must be a directory, and `p` must not be one. */
  function OpenError(entries: map<string, Entry>, p: string): Option<StoreError>
    requires Relative(p)
  {
    if p == [] then Some(FileExpected(p))
    else if !IsDirIn(entries, Parent(p)) then Some(ResourceNotFound(p))
    else if p in entries && entries[p].Directory? then Some(FileExpected(p))
    else None
  }

  lemma {:induction false} LineageParent(p: string, k: nat)
    requires Relative(p) && k < |Lineage(p)|
    ensures k + 1 < |Lineage(p)| ==> Lineage(p)[k + 1] == Parent(Lineage(p)[k])
    ensures k + 1 == |Lineage(p)| ==> Parent(Lineage(p)[k]) == []
    decreases |p|
  {
    var up := Lineage(Parent(p));
    assert Lineage(p) == [p] + up;
    if k > 0 {
      LineageParent(Parent(p), k - 1);
      DropAfterHead(p, up, k);
      if k < |up| {
        DropAfterHead(p, up, k + 1);
      }
    }
  }

  lemma {:induction false} LineageOfMember(p: string, k: nat)
    requires Relative(p) && k < |Lineage(p)|
    ensures Lineage(Lineage(p)[k]) == Lineage(p)[k..]
    decreases |p|
  {
    if k > 0 {
      var up := Lineage(Parent(p));
      assert Lineage(p) == [p] + up;
      LineageOfMember(Parent(p), k - 1);
      DropAfterHead(p, up, k);
    }
  }

  lemma DropAfterHead(x: string, s: seq<string>, k: nat)
    requires 1 <= k <= |s|
    ensures ([x] + s)[k] == s[k - 1] && ([x] + s)[k..] == s[k - 1..]
  {
  }

  /** In a tree, every proper ancestor of an entry is a directory. */
  lemma {:induction false} AncestorsAreDirectories(entries: map<string, Entry>, q: string)
    requires WellFormed(entries) && q in entries
    ensures forall k :: 1 <= k < |Lineage(q)| ==> Lineage(q)[k] in entries && entries[Lineage(q)[k]].Directory?
    decreases |q|
  {
    var r := Parent(q);
    assert Lineage(q) == [q] + Lineage(r);
    if r != [] {
      AncestorsAreDirectories(entries, r);
    }
  }

  /**
   * A successful `makedirs` keeps a tree a tree, leaves `p` a directory, keeps
   * every existing entry, and adds only directories on the way up to `p`.
   */
  lemma MakedirsCreates(entries: map<string, Entry>, p: string, recreate: bool)
    requires Relative(p) && WellFormed(entries)
    requires MakedirsOutcome(entries, p, recreate).Ok?
    ensures var m := MakedirsOutcome(entries, p, recreate).value;
            WellFormed(m) && IsDirIn(m, p)
            && (forall q :: q in entries ==> q in m && m[q] == entries[q])
            && (forall q :: q in m && q !in entries ==> m[q] == Directory && q in Lineage(p))
  {
    var line := Lineage(p);
    var n := IndexOfAny(line, entries.Keys);
    var m := AddDirs(entries, line[..n]);
    forall q | q in m
      ensures q != [] && Relative(q) && IsDirIn(m, Parent(q))
    {
      if q in entries {
        assert IsDirIn(entries, Parent(q));
      } else {
        var k :| 0 <= k < n && line[k] == q;
        LineageParent(p, k);
        if k + 1 < n {
          assert line[k + 1] in line[..n];
        }
      }
    }
    if p != [] && n > 0 {
      assert line[0] == p && p in line[..n];
    }
  }

  /**
   * In a tree, `makedirs` refuses with `DirectoryExpected` exactly when `p` or one
   * of its ancestors is a file.
   */
  lemma {:induction false} MakedirsRefusesFile(entries: map<string, Entry>, p: string, recreate: bool)
    requires Relative(p) && WellFormed(entries)
    ensures MakedirsOutcome(entries, p, recreate) == Err(DirectoryExpected(p))
        <==> exists k :: 0 <= k < |Lineage(p)| && Lineage(p)[k] in entries && entries[Lineage(p)[k]].File?
  {
    var line := Lineage(p);
    var n := IndexOfAny(line, entries.Keys);
    if exists k :: 0 <= k < |line| && line[k] in entries && entries[line[k]].File? {
      var k :| 0 <= k < |line| && line[k] in entries && entries[line[k]].File?;
      if n < k {
        AncestorsAreDirectories(entries, line[n]);
        LineageOfMember(p, n);
        assert false;
      }
    }
  }

  /** Every path on the way up to `p` is no longer than `p`. */
  lemma {:induction false} LineageNoLonger(p: string)
    requires Relative(p)
    ensures forall k :: 0 <= k < |Lineage(p)| ==> |Lineage(p)[k]| <= |p|
    decreases |p|
  {
    if p != [] {
      LineageNoLonger(Parent(p));
    }
  }

  /** `makedirs` without `recreate` succeeds only by making `p` itself, which was missing. */
  lemma MakedirsMadeTarget(entries: map<string, Entry>, p: string)
    requires Relative(p) && MakedirsOutcome(entries, p, false).Ok?
    ensures p != [] && p !in entries
  {
    assert Lineage(p) != [] ==> Lineage(p)[0] == p;
  }

  /** In a tree, nothing sits below a path that is missing. */
  lemma ChildOfAbsent(entries: map<string, Entry>, p: string, name: string)
    requires WellFormed(entries) && Tidy(p) && p != [] && p !in entries && '/' !in name
    ensures p + "/" + name !in entries
  {
    var q := p + "/" + name;
    assert q[0] == p[0];
    DirnameAfterSlash(p, name);
    assert Parent(q) == p;
  }

  /** `makedirs(p)` makes nothing longer than `p`: a path below `p` that was missing still is. */
  lemma FreshChild(entries: map<string, Entry>, p: string, name: string, recreate: bool)
    requires WellFormed(entries) && Relative(p) && name != []
    requires MakedirsOutcome(entries, p, recreate).Ok? && Child(p, name) !in entries
    ensures Child(p, name) !in MakedirsOutcome(entries, p, recreate).value
  {
    MakedirsCreates(entries, p, recreate);
    LineageNoLonger(p);
  }

  /** Removing a file keeps a tree a tree. */
  lemma RemoveKeepsTree(entries: map<string, Entry>, p: string)
    requires WellFormed(entries)
    ensures WellFormed(AfterRemove(entries, p))
  {
    if RemoveError(entries, p).None? {
      var m := entries - {p};
      forall q | q in m
        ensures IsDirIn(m, Parent(q))
      {
        assert IsDirIn(entries, Parent(q));
      }
    }
  }

  /** `getsyspath(p)` of a store rooted at `sysRoot` on the local disk, if it is there at all. */
  function SysPath(sysRoot: Option<string>, p: string): Result<string, StoreError> {
    match sysRoot
    case None => Err(NoSysPath(p))
    case Some(root) => Ok(Join(root, p))
  }

  class Store {
    var entries: map<string, Entry>
    /** Where the store lives on the local disk; `None` for stores (like memory ones) with no system path. */
    const sysRoot: Option<string>

    ghost predicate Valid()
      reads this
    {
      WellFormed(entries)
    }

    constructor (sysRoot: Option<string>)
      ensures Valid() && entries == map[] && this.sysRoot == sysRoot
    {
      this.sysRoot := sysRoot;
      entries := map[];
    }

    /** `exists(p)`. */
    predicate Exists(p: string)
      reads this
    {
      Present(entries, p)
    }

    /** `getsyspath(p)`. */
    function GetSysPath(p: string): (r: Result<string, StoreError>)
      ensures r.Ok? <==> sysRoot.Some?
      ensures r.Ok? ==> r.value == Join(sysRoot.value, p)
      ensures r.Err? ==> r.error == NoSysPath(p)
    {
      SysPath(sysRoot, p)
    }

    /** `makedirs(p, recreate)`, on the path `p` resolves to. */
    method Makedirs(p: string, recreate: bool) returns (err: Option<StoreError>)
      requires Valid()
      modifies this
      ensures Valid()
      ensures var o := MakedirsOutcome(old(entries), Normpath(p), recreate);
              if o.Ok? then err == None && entries == o.value
              else err == Some(o.error) && entries == old(entries)
    {
      var target := Normpath(p);
      var q := target;
      var missing: seq<string> := [];
      while q != [] && q !in entries
        invariant Relative(q)
        invariant Lineage(target) == missing + Lineage(q)
        invariant forall k :: 0 <= k < |missing| ==> missing[k] !in entries
        decreases |q|
      {
        assert Lineage(q) == [q] + Lineage(Parent(q));
        assert missing + Lineage(q) == (missing + [q]) + Lineage(Parent(q));
        missing := missing + [q];
        q := Parent(q);
      }
      MakedirsWalk(entries, target, recreate, missing, q);
      if q != [] && entries[q].File? {
        return Some(DirectoryExpected(target));
      }
      if missing == [] && !recreate {
        return Some(DirectoryExists(target));
      }
      MakedirsCreates(entries, target, recreate);
      entries := AddDirs(entries, missing);
      return None;
    }

    /** `remove(p)`, on the path `p` resolves to. */
    method Remove(p: string) returns (err: Option<StoreError>)
      requires Valid()
      modifies this
      ensures Valid()
      ensures err == RemoveError(old(entries), Normpath(p)) && entries == AfterRemove(old(entries), Normpath(p))
    {
      var target := Normpath(p);
      RemoveKeepsTree(entries, target);
      err := RemoveError(entries, target);
      if err.None? {
        entries := entries - {target};
      }
    }

    /** `open(p, 'wb')`: creates the path `p` resolves to, or truncates it, as an empty file. */
    method OpenWrite(p: string) returns (err: Option<StoreError>)
      requires Valid()
      modifies this
      ensures Valid()
      ensures err == OpenError(old(entries), Normpath(p))
      ensures entries == if err.None? then old(entries)[Normpath(p) := File([])] else old(entries)
    {
      var target := Normpath(p);
      err := OpenError(entries, target);
      if err.None? {
        entries := entries[target := File([])];
        forall q | q in entries
          ensures IsDirIn(entries, Parent(q))
        {
          if q != target { assert IsDirIn(old(entries), Parent(q)); }
        }
      }
    }

    /** Writing through a handle open on the (resolved) path `p` appends to the file. */
    method Write(p: string, data: seq<bv8>)
      requires Valid() && p in entries && entries[p].File?
      modifies this
      ensures Valid()
      ensures entries == old(entries)[p := File(old(entries)[p].data + data)]
    {
      entries := entries[p := File(entries[p].data + data)];
      forall q | q in entries
        ensures IsDirIn(entries, Parent(q))
      {
        assert IsDirIn(old(entries), Parent(q));
      }
    }
  }

  /** The walk up from `p` decides what `makedirs` does: the path it stopped at, and the missing paths it passed. */
  lemma MakedirsWalk(entries: map<string, Entry>, p: string, recreate: bool, missing: seq<string>, q: string)
    requires Relative(p) && Relative(q)
    requires Lineage(p) == missing + Lineage(q)
    requires forall k :: 0 <= k < |missing| ==> missing[k] !in entries
    requires q == [] || q in entries
    ensures MakedirsOutcome(entries, p, recreate) ==
      if q != [] && entries[q].File? then Err(DirectoryExpected(p))
      else if missing == [] && !recreate then Err(DirectoryExists(p))
      else Ok(AddDirs(entries, missing))
  {
    var line := Lineage(p);
    FirstPresentAfterMissing(missing, Lineage(q), entries);
    assert line[..|missing|] == missing;
    if q != [] {
      assert line[|missing|] == Lineage(q)[0] == q;
    }
  }

  lemma FirstPresentAfterMissing(missing: seq<string>, rest: seq<string>, entries: map<string, Entry>)
    requires forall k :: 0 <= k < |missing| ==> missing[k] !in entries
    requires rest == [] || rest[0] in entries
    ensures IndexOfAny(missing + rest, entries.Keys) == |missing|
  {
    var line := missing + rest;
    assert forall k :: 0 <= k < |missing| ==> line[k] == missing[k];
    if rest != [] {
      assert line[|missing|] == rest[0];
    }
  }
}
