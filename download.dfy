/**
 * The downloader (rowgenerators/appurl/web/download.py): it names every remote
 * resource by its cache key, makes room for it in the cache (retrying with
 * numbered sibling directories when a file stands where a directory is needed),
 * fetches it unless it is already cached, classifies HTTP failures, and removes
 * whatever a failed transfer wrote.
 *
 * The byte transfer is not modelled: what the remote side does for a URL is an
 * `Outcome` (the chunks it delivers, or where it fails), and the model follows
 * what `_download` does with it for S3, FTP and HTTP URLs.
 */
module Download {
  import opened Wrappers
  import opened PyText
  import UrlSplit
  import CacheKey
  import opened CacheStore

  type Chunk = seq<bv8>

  /** How a transfer fails. */
  datatype Failure =
    | HttpStatus(code: int)       // `raise_for_status` raised `HTTPError` for this status
    | SslFailure                  // `requests` raised `SSLError`
    | IoFailure(message: string)  // any other exception: FTP, connection or S3 errors
    | Interrupt                   // `KeyboardInterrupt`

  /** What the remote side does for one URL. */
  datatype Outcome =
    | Delivered(chunks: seq<Chunk>)
    | FailedToConnect(failure: Failure)
    | FailedMidway(written: seq<Chunk>, failure: Failure)

  /**
   * An outcome the transfer libraries can produce for `url`: an HTTP status failure
   * comes only from `raise_for_status` (line 323), so only for an HTTP URL and
   * before anything is read.
   */
  predicate Plausible(url: string, o: Outcome) {
    !o.Delivered? && o.failure.HttpStatus? ==> o.FailedToConnect? && !IsS3(url) && !IsFtp(url)
  }

  /** The exceptions that leave the downloader. */
  datatype Error =
    | HttpError(status: int)
    | SslError
    | IoError(message: string)
    | KeyboardInterrupt
    | StoreFailure(reason: StoreError)
    | DownloadError(cause: Error)
    | LocalFileMissing(candidates: set<string>)  // the `DownloadError` raised for a missing local file
    | AccessError(cause: Error)
    | MissingLockArgument                        // the `TypeError` of `_NoOpFileLock()` called without its argument

  /** A call of the progress callback. */
  datatype Report = Started(url: string) | Copied(read: nat, total: nat)

  datatype Resource = Resource(cachePath: string, sysPath: string, downloadTime: Option<real>)

  /** The parts of a resource URL the downloader reads. */
  datatype Request = Request(scheme: string, resourceUrl: string, authResourceUrl: Option<string>)

  function Raised(f: Failure): Error {
    match f
    case HttpStatus(code) => HttpError(code)
    case SslFailure => SslError
    case IoFailure(m) => IoError(m)
    case Interrupt => KeyboardInterrupt
  }

  predicate IsS3(url: string) { StartsWith(url, "s3:") }

  predicate IsFtp(url: string) { !IsS3(url) && StartsWith(url, "ftp:") }

  /** The bytes the remote side got across before it finished or failed. */
  function Written(o: Outcome): seq<Chunk> {
    match o
    case Delivered(chunks) => chunks
    case FailedToConnect(_) => []
    case FailedMidway(written, _) => written
  }

  function Flatten(chunks: seq<Chunk>): Chunk {
    if chunks == [] then [] else Flatten(chunks[..|chunks| - 1]) + chunks[|chunks| - 1]
  }

  /** The `copy_file` reports of the FTP read callback, one per chunk. */
  function Progress(chunks: seq<Chunk>): seq<Report> {
    if chunks == [] then []
    else Progress(chunks[..|chunks| - 1]) + [Copied(|chunks[|chunks| - 1]|, |Flatten(chunks)|)]
  }

  /** Report `k` carries the length of chunk `k` and the number of bytes written up to and including it. */
  lemma {:induction false} ProgressPerChunk(chunks: seq<Chunk>)
    ensures |Progress(chunks)| == |chunks|
    ensures forall k :: 0 <= k < |chunks| ==>
      Progress(chunks)[k] == Copied(|chunks[k]|, |Flatten(chunks[..k + 1])|)
  {
    if chunks != [] {
      var n := |chunks| - 1;
      var front := chunks[..n];
      ProgressPerChunk(front);
      assert Progress(chunks) == Progress(front) + [Copied(|chunks[n]|, |Flatten(chunks)|)];
      forall k | 0 <= k < |chunks|
        ensures Progress(chunks)[k] == Copied(|chunks[k]|, |Flatten(chunks[..k + 1])|)
      {
        if k < n {
          assert front[..k + 1] == chunks[..k + 1] && front[k] == chunks[k];
        } else {
          assert chunks[..k + 1] == chunks;
        }
      }
    }
  }

  /** One more chunk read: the bytes and the reports grow by that chunk. */
  lemma PrefixStep(chunks: seq<Chunk>, i: nat)
    requires i < |chunks|
    ensures Flatten(chunks[..i + 1]) == Flatten(chunks[..i]) + chunks[i]
    ensures Progress(chunks[..i + 1]) == Progress(chunks[..i]) + [Copied(|chunks[i]|, |Flatten(chunks[..i + 1])|)]
  {
    assert chunks[..i + 1][..i] == chunks[..i];
  }

  /** The running total: each report's total is the previous total plus the chunk just read. */
  lemma RunningTotal(chunks: seq<Chunk>, k: nat)
    requires k < |chunks|
    ensures |Progress(chunks)| == |chunks|
    ensures Progress(chunks)[k].Copied? && (k > 0 ==> Progress(chunks)[k - 1].Copied?)
    ensures Progress(chunks)[k].total == (if k == 0 then 0 else Progress(chunks)[k - 1].total) + Progress(chunks)[k].read
  {
    ProgressPerChunk(chunks);
    var upto := chunks[..k + 1];
    assert upto[..|upto| - 1] == chunks[..k];
    assert upto[|upto| - 1] == chunks[k];
    assert Flatten(upto) == Flatten(chunks[..k]) + chunks[k];
    if k == 0 {
      assert chunks[..0] == [];
    }
  }

  /** Whether `_download` opens the cache file: S3 opens it first, FTP and HTTP only once connected. */
  predicate Opens(url: string, o: Outcome) { IsS3(url) || !o.FailedToConnect? }

  /** The exception `_download` raises for a failed transfer, by scheme. */
  function FaultOf(url: string, o: Outcome): Option<Error> {
    if o.Delivered? then None
    else if IsS3(url) then Some(if o.failure == Interrupt then KeyboardInterrupt else DownloadError(Raised(o.failure)))
    else if !IsFtp(url) && o.FailedToConnect? && o.failure == SslFailure then Some(DownloadError(SslError))
    else Some(Raised(o.failure))
  }

  /** What `_download(url, ...)` raises, if anything, writing to the resolved path `p` of a store holding `entries`. */
  function TransferError(url: string, o: Outcome, entries: map<string, Entry>, p: string): Option<Error>
    requires Relative(p)
  {
    if Opens(url, o) && OpenError(entries, p).Some? then
      var e := StoreFailure(OpenError(entries, p).value);
      Some(if IsS3(url) then DownloadError(e) else e)
    else FaultOf(url, o)
  }

  /** The store after `_download(url, ...)` wrote to `p`: the file holds whatever arrived. */
  function TransferEntries(url: string, o: Outcome, entries: map<string, Entry>, p: string): map<string, Entry>
    requires Relative(p)
  {
    if Opens(url, o) && OpenError(entries, p).None? then entries[p := File(Flatten(Written(o)))] else entries
  }

  /** The callback calls `_download(url, ...)` makes. */
  function TransferReports(url: string, o: Outcome, entries: map<string, Entry>, p: string, callback: bool): seq<Report>
    requires Relative(p)
  {
    if !callback then []
    else [Started(url)] + if IsFtp(url) && Opens(url, o) && OpenError(entries, p).None? then Progress(Written(o)) else []
  }

  /** A transfer succeeds exactly when everything arrived and the file could be opened; the file then holds it all. */
  lemma TransferSucceeds(url: string, o: Outcome, entries: map<string, Entry>, p: string)
    requires Relative(p)
    ensures TransferError(url, o, entries, p).None? <==> o.Delivered? && OpenError(entries, p).None?
    ensures TransferError(url, o, entries, p).None? ==>
      TransferEntries(url, o, entries, p) == entries[p := File(Flatten(o.chunks))]
  {
  }

  /** An interrupt is never wrapped: it leaves `_download` as it came, once the file is open (or for FTP/HTTP, before). */
  lemma InterruptPassesThrough(url: string, o: Outcome, entries: map<string, Entry>, p: string)
    requires Relative(p) && !o.Delivered? && o.failure == Interrupt
    requires !Opens(url, o) || OpenError(entries, p).None?
    ensures TransferError(url, o, entries, p) == Some(KeyboardInterrupt)
  {
  }

  /**
   * For a plausible outcome, an HTTP status failure is exactly what reaches the
   * classifier as `HTTPError`, unwrapped, and it arrives before the cache file is
   * opened, so the store is untouched.
   */
  lemma HttpStatusSurfaces(url: string, o: Outcome, entries: map<string, Entry>, p: string)
    requires Relative(p) && Plausible(url, o)
    ensures TransferError(url, o, entries, p).Some? && TransferError(url, o, entries, p).value.HttpError?
        <==> o.FailedToConnect? && o.failure.HttpStatus?
    ensures o.FailedToConnect? && o.failure.HttpStatus? ==>
      !Opens(url, o) && TransferError(url, o, entries, p) == Some(HttpError(o.failure.code))
      && TransferEntries(url, o, entries, p) == entries
  {
  }

  /** `_download` itself never raises `AccessError`: only the classifier of line 238 does. */
  lemma TransferNeverDeniesAccess(url: string, o: Outcome, entries: map<string, Entry>, p: string)
    requires Relative(p)
    ensures TransferError(url, o, entries, p).Some? ==> !TransferError(url, o, entries, p).value.AccessError?
  {
  }

  /** What the handlers of lines 236-240 make of an HTTP error. */
  function Classify(status: int): Error {
    if status == 403 then AccessError(HttpError(status)) else DownloadError(HttpError(status))
  }

  /** The errors those handlers produce. */
  predicate IsClassified(err: Error) {
    (err.AccessError? || err.DownloadError?) && err.cause.HttpError? && err == Classify(err.cause.status)
  }

  /** The cleanup of lines 248-249: an existing entry at `key` is removed; removing a directory raises. */
  function Discard(entries: map<string, Entry>, key: string): (map<string, Entry>, Option<StoreError>) {
    if Present(entries, key) then (AfterRemove(entries, Normpath(key)), RemoveError(entries, Normpath(key))) else (entries, None)
  }

  /** After the cleanup no file is left at `key`; only a directory (or the root) survives, and it makes the cleanup raise. */
  lemma DiscardLeavesNoFile(entries: map<string, Entry>, key: string)
    ensures var (m, e) := Discard(entries, key);
            var p := Normpath(key);
            (p !in m && e == None) || ((p == [] || (p in m && m[p].Directory?)) && e == Some(FileExpected(p)) && m == entries)
  {
  }

  /**
   * Lines 221-251, the locked region, as a function of the store `e0` and the
   * reports `r0`: the result, the store after and the reports after. `key` is
   * the cache path; the store works on what it resolves to.
   */
  function LockedRun(url: string, key: string, o: Outcome, now: real, clean: bool, callback: bool,
                     e0: map<string, Entry>, r0: seq<Report>): (Result<Option<real>, Error>, map<string, Entry>, seq<Report>)
  {
    var p := Normpath(key);
    if Present(e0, key) && !clean then (Ok(None), e0, r0)
    else
      var e1 := if Present(e0, key) then AfterRemove(e0, p) else e0;
      var err := TransferError(url, o, e1, p);
      var e2 := TransferEntries(url, o, e1, p);
      var r := r0 + TransferReports(url, o, e1, p, callback);
      if err.None? then (Ok(Some(now)), e2, r)
      else if err.value.HttpError? then (Err(Classify(err.value.status)), e2, r)
      else
        var (e3, cleanup) := Discard(e2, key);
        (Err(if cleanup.Some? then StoreFailure(cleanup.value) else err.value), e3, r)
  }

  /**
   * The locked region returns no timestamp only on a cache hit, which it leaves
   * alone; a timestamp means the whole download is in the file. A failure leaves
   * no file at the key when the outcome is plausible: only a directory that was
   * in the way. Whatever the outcome, a failure other than an HTTP one leaves no
   * file, and a directory in the way makes the cleanup raise `FileExpected`.
   */
  lemma LockedResult(url: string, key: string, o: Outcome, now: real, clean: bool, callback: bool,
                     e0: map<string, Entry>, r0: seq<Report>)
    requires WellFormed(e0)
    ensures var (result, e, r) := LockedRun(url, key, o, now, clean, callback, e0, r0);
            var p := Normpath(key);
            && (result == Ok(None) <==> Present(e0, key) && !clean)
            && (result == Ok(None) ==> e == e0 && r == r0)
            && (result.Ok? && result.value.Some? ==>
                  result.value == Some(now) && o.Delivered? && p in e && e[p] == File(Flatten(o.chunks)))
            && (result.Err? && Plausible(url, o) ==> p !in e || e[p].Directory?)
            && (result.Err? && p in e && !IsClassified(result.error) ==>
                  e[p].Directory? && result.error == StoreFailure(FileExpected(p)))
            && (result.Err? && result.error.AccessError? ==> result.error == Classify(403))
  {
    var p := Normpath(key);
    if !(Present(e0, key) && !clean) {
      var e1 := if Present(e0, key) then AfterRemove(e0, p) else e0;
      TransferSucceeds(url, o, e1, p);
      TransferNeverDeniesAccess(url, o, e1, p);
      DiscardLeavesNoFile(TransferEntries(url, o, e1, p), key);
    }
  }

  /** Opening a file empties it; copying then leaves exactly the data copied. */
  lemma OpenThenCopy(entries: map<string, Entry>, key: string, data: Chunk)
    ensures entries[key := File([])][key := File([] + data)] == entries[key := File(data)]
  {
    assert [] + data == data;
  }

  /** The start report goes before whatever the transfer reports. */
  lemma StartedFirst(r: seq<Report>, url: string, x: seq<Report>)
    ensures (r + [Started(url)]) + x == r + ([Started(url)] + x)
    ensures r + [Started(url)] == r + ([Started(url)] + [])
  {
  }

  /** `str(i)` for the sibling index `i`, then `join(dn + str(i), bn)`. */
  function Sibling(dn: string, bn: string, i: nat): string
    requires i < 10
  {
    Join(dn + NatToString(i), bn)
  }

  /** The `i`-th sibling key is its directory `dn + str(i)`, a slash, and the base name. */
  lemma SiblingShape(dn: string, bn: string, i: nat)
    requires Relative(dn) && '/' !in bn && i < 10
    ensures Sibling(dn, bn, i) == SiblingDir(dn, i) + "/" + bn
    ensures Relative(Sibling(dn, bn, i))
  {
    var x := SiblingDir(dn, i);
    assert NatToString(i) == [DigitChar(i)];
    assert (x + "/" + bn)[0] == x[0];
  }

  /** The directory line 201 creates for the `i`-th sibling key is `dn + str(i)`. */
  lemma SiblingDirname(dn: string, bn: string, i: nat)
    requires Relative(dn) && '/' !in bn && i < 10
    ensures Dirname(Sibling(dn, bn, i)) == SiblingDir(dn, i)
  {
    SiblingShape(dn, bn, i);
    DirnameAfterSlash(SiblingDir(dn, i), bn);
  }

  /** The directory of the `i`-th sibling: `dn + str(i)`. */
  function SiblingDir(dn: string, i: nat): (d: string)
    requires Relative(dn) && i < 10
    ensures Relative(d)
  {
    var d := dn + [DigitChar(i)];
    assert d[0] == if dn == [] then DigitChar(i) else dn[0];
    d
  }

  /** The `makedirs` outcome for each of the ten sibling directories, against the same store. */
  function SiblingAttempts(entries: map<string, Entry>, dn: string): (attempts: seq<Result<map<string, Entry>, StoreError>>)
    requires Relative(dn)
    ensures |attempts| == 10
  {
    seq(10, t requires 0 <= t < 10 => MakedirsOutcome(entries, Normpath(SiblingDir(dn, t)), false))
  }

  /**
   * The loop of lines 197-208 over the attempts from `i` on: the index and store of
   * the first success, stepping over `DirectoryExpected` and stopping at any other error.
   */
  function Pick(attempts: seq<Result<map<string, Entry>, StoreError>>, i: nat): Option<(nat, map<string, Entry>)>
    requires i <= |attempts|
    decreases |attempts| - i
  {
    if i == |attempts| then None
    else match attempts[i]
      case Ok(m) => Some((i, m))
      case Err(e) => if e.DirectoryExpected? then Pick(attempts, i + 1) else None
  }

  /**
   * The sibling retry of lines 195-208: the first sibling key whose directory
   * `makedirs` creates, with the store it leaves; `None` when a sibling directory
   * already exists or all ten stand behind files.
   */
  function SiblingSearch(entries: map<string, Entry>, dn: string, bn: string): Option<(string, map<string, Entry>)>
    requires Relative(dn)
  {
    match Pick(SiblingAttempts(entries, dn), 0)
    case None => None
    case Some((j, m)) => if j < 10 then Some((SiblingDir(dn, j) + "/" + bn, m)) else None
  }

  /** The loop keeps the first success; every attempt before it met a file. */
  lemma {:induction false} PickFirst(attempts: seq<Result<map<string, Entry>, StoreError>>, i: nat)
    requires i <= |attempts| && Pick(attempts, i).Some?
    ensures var (j, m) := Pick(attempts, i).value;
            i <= j < |attempts| && attempts[j] == Ok(m)
            && forall t :: i <= t < j ==> attempts[t].Err? && attempts[t].error.DirectoryExpected?
    decreases |attempts| - i
  {
    if attempts[i].Err? {
      PickFirst(attempts, i + 1);
    }
  }

  /** The loop gives up after meeting files everywhere, or at the first attempt that fails otherwise. */
  lemma {:induction false} PickGivesUp(attempts: seq<Result<map<string, Entry>, StoreError>>, i: nat) returns (j: nat)
    requires i <= |attempts| && Pick(attempts, i).None?
    ensures i <= j <= |attempts|
    ensures forall t :: i <= t < j ==> attempts[t].Err? && attempts[t].error.DirectoryExpected?
    ensures j < |attempts| ==> attempts[j].Err? && !attempts[j].error.DirectoryExpected?
    decreases |attempts| - i
  {
    if i == |attempts| {
      j := i;
    } else if attempts[i].Err? && attempts[i].error.DirectoryExpected? {
      j := PickGivesUp(attempts, i + 1);
    } else {
      j := i;
    }
  }

  /**
   * The retry settles on `dn + str(j) + "/" + bn` for the first `j` whose directory
   * `makedirs` creates; every earlier sibling directory stood behind a file.
   */
  lemma SiblingSearchFirst(entries: map<string, Entry>, dn: string, bn: string) returns (j: nat)
    requires Relative(dn) && SiblingSearch(entries, dn, bn).Some?
    ensures j < 10
    ensures SiblingSearch(entries, dn, bn).value.0 == SiblingDir(dn, j) + "/" + bn
    ensures MakedirsOutcome(entries, Normpath(SiblingDir(dn, j)), false) == Ok(SiblingSearch(entries, dn, bn).value.1)
    ensures forall t :: 0 <= t < j ==>
      SiblingAttempts(entries, dn)[t].Err? && SiblingAttempts(entries, dn)[t].error.DirectoryExpected?
  {
    var attempts := SiblingAttempts(entries, dn);
    PickFirst(attempts, 0);
    j := Pick(attempts, 0).value.0;
  }

  /**
   * `locations` of lines 117-122. The working directory only matters for a
   * relative path, and stripping the leading slashes only for an absolute one,
   * so there are never more than two places to look.
   */
  function LocalCandidates(path: string, workingDir: string, abspath: string -> string): (places: set<string>)
    ensures |places| <= 2
    ensures path != [] && path[0] == '/' ==> places == {abspath(path), abspath(LStrip(path, {'/'}))}
    ensures Relative(path) ==> places == {abspath(path), abspath(Join(workingDir, path))}
  {
    var stripped := abspath(LStrip(path, {'/'}));
    {abspath(path), stripped, abspath(Join(workingDir, path)), stripped}
  }

  /**
   * Lines 186-208 as a function of the store: the key the download goes on with,
   * the error that stops it, and the store after room was made for the key `k`.
   */
  function Room(entries: map<string, Entry>, k: string): (string, Option<Error>, map<string, Entry>)
    requires Relative(k)
  {
    DirnameOfRelative(k);
    var dn := Dirname(k);
    if Present(entries, k) then (k, None, entries)
    else match MakedirsOutcome(entries, Normpath(dn), true)
      case Ok(m) => (k, None, m)
      case Err(e) =>
        match SiblingSearch(entries, dn, Basename(k))
        case Some((s, m)) => (s, None, m)
        case None => (k, Some(StoreFailure(e)), entries)
  }

  /**
   * Making room keeps the store a tree, and fails only on the original key,
   * leaving the store alone; a different key is the `j`-th sibling. When the
   * key's base name names something, the key ends up free unless it was cached
   * already. When the base name is empty or `.` (a URL path ending in `/`), the
   * key resolves to the very directory made for it, so it ends up present.
   */
  lemma RoomFacts(entries: map<string, Entry>, k: string) returns (j: nat)
    requires WellFormed(entries) && Relative(k)
    ensures var (key, err, m) := Room(entries, k);
            && WellFormed(m) && Relative(key)
            && (Present(entries, k) ==> key == k && err == None && m == entries)
            && (err.Some? ==> key == k && m == entries && err.value.StoreFailure?)
            && (key != k ==> j < 10 && key == SiblingDir(Dirname(k), j) + "/" + Basename(k))
            && (err.None? && IsName(Basename(k)) ==> (Present(m, key) <==> Present(entries, k)))
            && (err.None? && !IsName(Basename(k)) ==> Present(m, key))
  {
    j := 0;
    if !Present(entries, k) {
      var dn := Dirname(k);
      var bn := Basename(k);
      DirnameOfRelative(k);
      var nd := Normpath(dn);
      if MakedirsOutcome(entries, nd, true).Ok? {
        NormpathSplit(k);
        MakedirsCreates(entries, nd, true);
        if IsName(bn) {
          FreshChild(entries, nd, bn, true);
        }
      } else if SiblingSearch(entries, dn, bn).Some? {
        j := SiblingSearchFirst(entries, dn, bn);
        SiblingCreatedFresh(entries, dn, bn, j);
        SiblingShape(dn, bn, j);
      }
    }
  }

  /**
   * `_download_with_lock(url)` as a function of the store and the reports: the
   * key it settles on, its result, the store after and the reports after. `k` is
   * the cache key of `url` (`CacheKeys`). The backslashes of the URL become
   * slashes first (line 165), and that URL is the one fetched and reported. With
   * no system path for the lock file the call fails before the locked region.
   */
  function DownloadRun(url: string, k: string, transfer: string -> Outcome, now: real,
                       clean: bool, callback: bool, sysRoot: Option<string>, e0: map<string, Entry>, r0: seq<Report>)
    : (string, Result<Option<real>, Error>, map<string, Entry>, seq<Report>)
    requires Relative(k)
  {
    var u := ReplaceChar(url, '\\', '/');
    var (key, err, e1) := Room(e0, k);
    if err.Some? then (key, Err(err.value), e1, r0)
    else if sysRoot.None? then (key, Err(MissingLockArgument), e1, r0)
    else
      var (result, e, r) := LockedRun(u, key, transfer(u), now, clean, callback, e1, r0);
      (key, result, e, r)
  }

  /**
   * What `_download_with_lock` promises. A cached key is a hit that changes
   * nothing; a run without a timestamp is always such a hit. A key whose base name
   * is empty or `.` is never fetched: it resolves to the directory made for it. A
   * timestamp means the whole resource is in the file at the key. Without a system
   * path nothing is fetched. `AccessError` is only ever the 403 classification.
   * With a system path, a failure leaves no file at the key when the outcome is
   * plausible.
   */
  lemma DownloadRunResult(url: string, k: string, transfer: string -> Outcome, now: real,
                          clean: bool, callback: bool, sysRoot: Option<string>, e0: map<string, Entry>, r0: seq<Report>)
    requires WellFormed(e0) && Relative(k)
    ensures var u := ReplaceChar(url, '\\', '/');
            var (key, result, e, r) := DownloadRun(url, k, transfer, now, clean, callback, sysRoot, e0, r0);
            var p := Normpath(key);
            && (Present(e0, k) && !clean && sysRoot.Some? ==> key == k && result == Ok(None) && e == e0 && r == r0)
            && (result == Ok(None) ==> !clean && r == r0 && Present(e, key))
            && (result == Ok(None) && IsName(Basename(k)) ==> key == k && Present(e0, k) && e == e0)
            && (!IsName(Basename(k)) && !clean && result.Ok? ==> result == Ok(None))
            && (result.Ok? && result.value.Some? ==>
                  result.value == Some(now) && transfer(u).Delivered? && p in e && e[p] == File(Flatten(transfer(u).chunks)))
            && (sysRoot.None? ==> result.Err? && r == r0 && (result.error == MissingLockArgument || result.error.StoreFailure?))
            && (result.Err? && result.error.AccessError? ==> result.error == Classify(403))
            && (sysRoot.Some? && result.Err? && Plausible(u, transfer(u)) ==> p !in e || e[p].Directory?)
  {
    var j := RoomFacts(e0, k);
    var (key, err, e1) := Room(e0, k);
    if err.None? && sysRoot.Some? {
      var u := ReplaceChar(url, '\\', '/');
      LockedResult(u, key, transfer(u), now, clean, callback, e1, r0);
    }
  }

  /** The cache key of lines 165-184 for every URL (`CacheKey.Key`), each a relative path. */
  function CacheKeys(sha224: string -> string): (keyOf: string -> string)
    requires forall s :: CacheKey.IsHexDigest(sha224(s))
    ensures forall u :: keyOf(u) == CacheKey.Key(u, sha224) && Relative(keyOf(u))
  {
    forall u ensures Relative(CacheKey.Key(u, sha224)) {
      CacheKey.KeyIsRelative(u, sha224);
    }
    u => CacheKey.Key(u, sha224)
  }

  /** Line 146: a result becomes the resource at the key, with the store's system path for it. */
  function Settle(key: string, result: Result<Option<real>, Error>, sysPath: Result<string, StoreError>): Result<Resource, Error> {
    if result.Err? then Err(result.error)
    else if sysPath.Err? then Err(StoreFailure(sysPath.error))
    else Ok(Resource(key, sysPath.value, result.value))
  }

  /**
   * Lines 134-146: the first run goes through the cache; it is retried, once,
   * exactly when it failed with `AccessError` and there is an authenticated URL.
   * The run that counts ends in `r`, the store `e` and the reports `rs`.
   */
  ghost predicate RetryEffect(url: string, authUrl: Option<string>, keyOf: string -> string, transfer: string -> Outcome,
                              now: real, clean: bool, callback: bool, sysRoot: Option<string>,
                              e0: map<string, Entry>, r0: seq<Report>,
                              r: Result<Resource, Error>, attempts: nat, e: map<string, Entry>, rs: seq<Report>)
    requires forall s :: Relative(keyOf(s))
  {
    var (k1, first, e1, r1) := DownloadRun(url, keyOf(url), transfer, now, clean, callback, sysRoot, e0, r0);
    var retry := first.Err? && first.error.AccessError? && authUrl.Some?;
    attempts == (if retry then 2 else 1)
    && if retry then
         var (k2, second, e2, r2) := DownloadRun(authUrl.value, keyOf(authUrl.value), transfer, now, clean, callback, sysRoot, e1, r1);
         r == Settle(k2, second, SysPath(sysRoot, k2)) && e == e2 && rs == r2
       else
         r == Settle(k1, first, SysPath(sysRoot, k1)) && e == e1 && rs == r1
  }

  class Downloader {
    const cache: Store
    const workingDir: string
    /** Whether a progress callback was given. */
    const callback: bool
    var clean: bool
    /** The calls made to the progress callback, in order. */
    var reports: seq<Report>

    constructor (cache: Store, workingDir: string, callback: bool)
      ensures this.cache == cache && this.workingDir == workingDir && this.callback == callback
      ensures !clean && reports == []
    {
      this.cache := cache;
      this.workingDir := workingDir;
      this.callback := callback;
      clean := false;
      reports := [];
    }

    /** Writes `chunks` to the open file `path`; with `report`, the FTP read callback's running total. */
    method Copy(path: string, chunks: seq<Chunk>, report: bool)
      requires cache.Valid() && path in cache.entries && cache.entries[path].File?
      modifies this`reports, cache
      ensures cache.Valid()
      ensures cache.entries == old(cache.entries)[path := File(old(cache.entries)[path].data + Flatten(chunks))]
      ensures reports == old(reports) + if report && callback then Progress(chunks) else []
    {
      var total := 0;
      var i := 0;
      assert chunks[..0] == [];
      ghost var e0 := cache.entries;
      assert e0[path].data + [] == e0[path].data;
      assert e0[path := File(e0[path].data)] == e0;
      while i < |chunks|
        invariant 0 <= i <= |chunks|
        invariant cache.Valid()
        invariant cache.entries == old(cache.entries)[path := File(old(cache.entries)[path].data + Flatten(chunks[..i]))]
        invariant total == |Flatten(chunks[..i])|
        invariant reports == old(reports) + if report && callback then Progress(chunks[..i]) else []
      {
        var d := chunks[i];
        PrefixStep(chunks, i);
        assert cache.entries[path].data + d == old(cache.entries)[path].data + Flatten(chunks[..i + 1]);
        cache.Write(path, d);
        total := total + |d|;
        if report && callback {
          reports := reports + [Copied(|d|, total)];
        }
        i := i + 1;
      }
      assert chunks[..i] == chunks;
    }

    /** `_download`: the callback, then the S3, FTP or HTTP branch. */
    method Transfer(url: string, key: string, outcome: Outcome) returns (err: Option<Error>)
      requires cache.Valid()
      modifies this`reports, cache
      ensures cache.Valid()
      ensures err == TransferError(url, outcome, old(cache.entries), Normpath(key))
      ensures cache.entries == TransferEntries(url, outcome, old(cache.entries), Normpath(key))
      ensures reports == old(reports) + TransferReports(url, outcome, old(cache.entries), Normpath(key), callback)
    {
      ghost var r0 := reports;
      if callback {
        reports := reports + [Started(url)];
      }
      ghost var r1 := reports;
      if IsS3(url) {
        err := FetchS3(url, key, outcome);
      } else if IsFtp(url) {
        err := FetchFtp(url, key, outcome);
      } else {
        err := FetchHttp(url, key, outcome);
      }
      if callback {
        StartedFirst(r0, url, reports[|r1|..]);
      }
    }

    /** Lines 265-276: S3 opens the cache file first, and wraps every failure but an interrupt in `DownloadError`. */
    method FetchS3(url: string, key: string, outcome: Outcome) returns (err: Option<Error>)
      requires cache.Valid() && IsS3(url)
      modifies this`reports, cache
      ensures cache.Valid() && reports == old(reports)
      ensures err == TransferError(url, outcome, old(cache.entries), Normpath(key))
      ensures cache.entries == TransferEntries(url, outcome, old(cache.entries), Normpath(key))
    {
      var e := cache.OpenWrite(key);
      if e.Some? {
        return Some(DownloadError(StoreFailure(e.value)));
      }
      Copy(Normpath(key), Written(outcome), false);
      OpenThenCopy(old(cache.entries), Normpath(key), Flatten(Written(outcome)));
      return FaultOf(url, outcome);
    }

    /** Lines 278-296: connect, then open the cache file, then copy with the running-total callback. */
    method FetchFtp(url: string, key: string, outcome: Outcome) returns (err: Option<Error>)
      requires cache.Valid() && IsFtp(url)
      modifies this`reports, cache
      ensures cache.Valid()
      ensures err == TransferError(url, outcome, old(cache.entries), Normpath(key))
      ensures cache.entries == TransferEntries(url, outcome, old(cache.entries), Normpath(key))
      ensures reports == old(reports) + if callback && Opens(url, outcome) && OpenError(old(cache.entries), Normpath(key)).None?
                                        then Progress(Written(outcome)) else []
    {
      if outcome.FailedToConnect? {
        return Some(Raised(outcome.failure));
      }
      var e := cache.OpenWrite(key);
      if e.Some? {
        return Some(StoreFailure(e.value));
      }
      Copy(Normpath(key), Written(outcome), true);
      OpenThenCopy(old(cache.entries), Normpath(key), Flatten(Written(outcome)));
      return FaultOf(url, outcome);
    }

    /** Lines 314-336: GET and status check, then open the cache file and copy. */
    method FetchHttp(url: string, key: string, outcome: Outcome) returns (err: Option<Error>)
      requires cache.Valid() && !IsS3(url) && !IsFtp(url)
      modifies this`reports, cache
      ensures cache.Valid() && reports == old(reports)
      ensures err == TransferError(url, outcome, old(cache.entries), Normpath(key))
      ensures cache.entries == TransferEntries(url, outcome, old(cache.entries), Normpath(key))
      ensures Plausible(url, outcome) && err.Some? && err.value.HttpError? ==> cache.entries == old(cache.entries)
    {
      if outcome.FailedToConnect? {
        return FaultOf(url, outcome);
      }
      var e := cache.OpenWrite(key);
      if e.Some? {
        return Some(StoreFailure(e.value));
      }
      Copy(Normpath(key), Written(outcome), false);
      OpenThenCopy(old(cache.entries), Normpath(key), Flatten(Written(outcome)));
      return FaultOf(url, outcome);
    }

    /** The loop of lines 197-208. */
    method RetrySiblings(dn: string, bn: string) returns (key: Option<string>)
      requires cache.Valid() && Relative(dn) && '/' !in bn
      modifies cache
      ensures cache.Valid()
      ensures var s := SiblingSearch(old(cache.entries), dn, bn);
              if s.Some? then key == Some(s.value.0) && cache.entries == s.value.1
              else key == None && cache.entries == old(cache.entries)
    {
      ghost var attempts := SiblingAttempts(cache.entries, dn);
      var i := 0;
      while i < 10
        invariant 0 <= i <= 10
        invariant cache.Valid() && cache.entries == old(cache.entries)
        invariant Pick(attempts, 0) == Pick(attempts, i)
      {
        SiblingShape(dn, bn, i);
        var candidate := Join(dn + NatToString(i), bn);
        // `os.path.dirname(cache_path)`, which is `dn + str(i)` (SiblingDirname)
        var err := cache.Makedirs(SiblingDir(dn, i), false);
        assert attempts[i] == MakedirsOutcome(old(cache.entries), Normpath(SiblingDir(dn, i)), false);
        if err.None? {
          return Some(candidate);
        }
        if !err.value.DirectoryExpected? {
          return None;
        }
        i := i + 1;
      }
      return None;
    }

    /** Lines 186-208: room in the cache for the key `k`, or for a sibling of it. */
    method MakeRoom(k: string) returns (key: string, err: Option<Error>)
      requires cache.Valid() && Relative(k)
      modifies cache
      ensures cache.Valid()
      ensures (key, err, cache.entries) == Room(old(cache.entries), k)
    {
      key, err := k, None;
      if !cache.Exists(key) {
        DirnameOfRelative(key);
        var dir := Dirname(key);
        var e := cache.Makedirs(dir, true);
        if e.Some? {
          var sibling := RetrySiblings(dir, Basename(key));
          if sibling.None? {
            return key, Some(StoreFailure(e.value));
          }
          key := sibling.value;
        }
      }
    }

    /** Lines 221-251, the locked region: the re-check, the clean, the transfer, and the handlers. */
    method Locked(url: string, key: string, outcome: Outcome, now: real) returns (result: Result<Option<real>, Error>)
      requires cache.Valid()
      modifies this`reports, cache
      ensures cache.Valid()
      ensures (result, cache.entries, reports) == LockedRun(url, key, outcome, now, clean, callback, old(cache.entries), old(reports))
    {
      if cache.Exists(key) {
        if clean {
          var _ := cache.Remove(key);
        } else {
          return Ok(None);
        }
      }
      var err := Transfer(url, key, outcome);
      if err.None? {
        return Ok(Some(now));
      }
      if err.value.HttpError? {
        return Err(Classify(err.value.status));
      }
      if cache.Exists(key) {
        var e := cache.Remove(key);
        if e.Some? {
          return Err(StoreFailure(e.value));
        }
      }
      return Err(err.value);
    }

    /** `_download_with_lock(url)`: the key, the lock, then the locked region, on the URL with its backslashes replaced. */
    method DownloadWithLock(url: string, keyOf: string -> string, transfer: string -> Outcome, now: real)
      returns (key: string, result: Result<Option<real>, Error>)
      requires cache.Valid()
      requires forall s :: Relative(keyOf(s))
      modifies this`reports, cache
      ensures cache.Valid()
      ensures (key, result, cache.entries, reports)
           == DownloadRun(url, keyOf(url), transfer, now, clean, callback, cache.sysRoot, old(cache.entries), old(reports))
    {
      var u := ReplaceChar(url, '\\', '/');
      var err;
      key, err := MakeRoom(keyOf(url));
      if err.Some? {
        return key, Err(err.value);
      }
      var lock := cache.GetSysPath(key + ".lock");
      if lock.Err? {
        return key, Err(MissingLockArgument);
      }
      result := Locked(u, key, transfer(u), now);
    }

    /**
     * `download(url)`: a local file is looked up in place; anything else goes
     * through the cache.
     */
    method Download(request: Request, abspath: string -> string, existing: set<string>,
                    transfer: string -> Outcome, sha224: string -> string, now: real)
      returns (r: Result<Resource, Error>, ghost attempts: nat)
      requires cache.Valid()
      requires forall s :: CacheKey.IsHexDigest(sha224(s))
      modifies this`reports, cache
      ensures cache.Valid()
      ensures request.scheme == "file" ==>
        var path := UrlSplit.Parse(request.resourceUrl).path;
        var places := LocalCandidates(path, workingDir, abspath);
        attempts == 0 && cache.entries == old(cache.entries) && reports == old(reports)
        && (r.Ok? <==> exists l :: l in places && l in existing)
        && (r.Ok? ==> r.value.cachePath == path && r.value.sysPath in places && r.value.sysPath in existing
                      && r.value.downloadTime == None)
        && (r.Err? ==> r.error == LocalFileMissing(places))
      ensures request.scheme != "file" ==>
        RetryEffect(request.resourceUrl, request.authResourceUrl, CacheKeys(sha224), transfer, now, clean, callback, cache.sysRoot,
                    old(cache.entries), old(reports), r, attempts, cache.entries, reports)
    {
      if request.scheme == "file" {
        attempts := 0;
        var path := UrlSplit.Parse(request.resourceUrl).path;
        var places := LocalCandidates(path, workingDir, abspath);
        if l :| l in places && l in existing {
          return Ok(Resource(path, l, None)), attempts;
        }
        return Err(LocalFileMissing(places)), attempts;
      }
      r, attempts := DownloadRemote(request.resourceUrl, request.authResourceUrl, transfer, CacheKeys(sha224), now);
    }

    /**
     * Lines 134-146: the download through the cache, where an `AccessError` is
     * retried once with the authenticated URL when there is one; any other
     * failure, and the retry's, leaves as it is.
     */
    method DownloadRemote(url: string, authUrl: Option<string>, transfer: string -> Outcome, keyOf: string -> string, now: real)
      returns (r: Result<Resource, Error>, ghost attempts: nat)
      requires cache.Valid()
      requires forall s :: Relative(keyOf(s))
      modifies this`reports, cache
      ensures cache.Valid()
      ensures RetryEffect(url, authUrl, keyOf, transfer, now, clean, callback, cache.sysRoot,
                          old(cache.entries), old(reports), r, attempts, cache.entries, reports)
    {
      var key, result := DownloadWithLock(url, keyOf, transfer, now);
      attempts := 1;
      if result.Err? && result.error.AccessError? && authUrl.Some? {
        key, result := DownloadWithLock(authUrl.value, keyOf, transfer, now);
        attempts := 2;
      }
      r := Settle(key, result, cache.GetSysPath(key));
    }
  }

  /**
   * Making the `j`-th sibling's directory keeps the store a tree. The sibling key
   * was not in the store and is still free afterwards when its base name names
   * something; when the base name is empty or `.`, the key resolves to the
   * directory just made.
   */
  lemma SiblingCreatedFresh(entries: map<string, Entry>, dn: string, bn: string, j: nat)
    requires WellFormed(entries) && Relative(dn) && '/' !in bn && j < 10
    requires MakedirsOutcome(entries, Normpath(SiblingDir(dn, j)), false).Ok?
    ensures var key := SiblingDir(dn, j) + "/" + bn;
            var m := MakedirsOutcome(entries, Normpath(SiblingDir(dn, j)), false).value;
            WellFormed(m) && (Present(m, key) <==> !IsName(bn))
  {
    var dir := SiblingDir(dn, j);
    var nd := Normpath(dir);
    var key := dir + "/" + bn;
    MakedirsCreates(entries, nd, false);
    MakedirsMadeTarget(entries, nd);
    SiblingResolves(dn, bn, j);
    if IsName(bn) {
      ChildOfAbsent(entries, nd, bn);
      FreshChild(entries, nd, bn, false);
    }
  }

  /** The `j`-th sibling key resolves below its directory, or to it when the base name names nothing. */
  lemma SiblingResolves(dn: string, bn: string, j: nat)
    requires Relative(dn) && '/' !in bn && j < 10
    ensures var dir := SiblingDir(dn, j);
            Normpath(dir + "/" + bn) == if IsName(bn) then Child(Normpath(dir), bn) else Normpath(dir)
  {
    var dir := SiblingDir(dn, j);
    SiblingShape(dn, bn, j);
    SiblingDirname(dn, bn, j);
    BasenameAfterSlash(dir, bn);
    NormpathSplit(dir + "/" + bn);
  }
}
