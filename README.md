# rowgenerators core, modelled in Dafny

This project models three parts of the `rowgenerators` library.

- **The downloader** (`rowgenerators/appurl/web/download.py`). It names each remote resource by a cache key. That key is built from the URL's netloc and path, plus the SHA-224 digest of the query when there is one. It then makes room for the key in the cache, retrying with the numbered sibling directories `dn0` … `dn9` when a file stands where a directory is needed. Under the lock it looks the key up again, fetches the resource unless it is cached (or `clean` is set), and classifies HTTP failures as access or download errors. After any other failure it removes whatever the transfer wrote at the key. Cache paths are resolved the way the filesystem resolves them, so a URL whose path ends in `/` keys the directory made for it and is never fetched. `download` puts local `file` URLs and the retry with the authenticated URL around this.
- **The row generators** (`rowgenerators/generators.py`):
  - the row limit of `Source`;
  - the fixed-width parser and headers of `FixedSource`;
  - the shapefile column list;
  - the Socrata and Google Sheets download URLs;
  - the row window of `DataRowGenerator`;
  - the header/comment scan and header coalescing of `SelectiveRowGenerator`;
  - the dictionaries of `DictRowGenerator`.
- **The SQL URLs** (`rowgenerators/appurl/sql.py`): `Sql`, `SqlDsn` and `OracleSql`, with:
  - their scheme matching and shared priority;
  - the query kept in fragment slot 0;
  - the DSN indirection;
  - the connection string whose password is filled in from the environment.

## Files and modules

- `wrappers.dfy` (`Wrappers`): `Option` and `Result`.
- `py_text.dfy` (`PyText`): the Python string, `int()`/`str()` and `posixpath` operations the code is written with.
- `url_split.dfy` (`UrlSplit`): `urllib.parse.urlparse`. It splits a URL into the components of section 3 of RFC 3986, plus `;params`.
- `cache_key.dfy` (`CacheKey`): the cache key, as a pure function of the URL.
- `cache_store.dfy` (`CacheStore`): the cache filesystem. It is a tree of files and directories whose five operations are specified by functions of the old tree. The `Store` class changes its `entries` exactly as those functions say.
- `download.dfy` (`Download`): the `Downloader` class, with one method per stage of the download.
- `sources.dfy` (`Sources`): `Source.__iter__`, the fixed-width parser, the shapefile columns and the download URL builders.
- `coalesce.dfy` (`Coalesce`): `coalesce_headers`, as a specification function with its properties.
- `row_streams.dfy` (`RowStreams`): `DataRowGenerator`, `SelectiveRowGenerator` (a class whose scan appends to `headers` and `comments`) and `DictRowGenerator`.
- `sql_url.dfy` (`SqlUrl`): the SQL URL variants, as one `Url` class told apart by `variant`.

## Modelling choices

- **Opaque primitives are parameters.**
  - SHA-224 is the parameter `sha224: string -> string`. The properties that need it assume only that it yields 56 lower-case hex digits.
  - `time.time()` is the parameter `now`.
  - `os.path.abspath` is the parameter `abspath`, and the set of existing local paths is `existing`.
  - `parse_app_url` is the parameter `parse`.
  - The environment is the map `env`.
- **The remote side is an `Outcome`.** It is the chunks it delivers, a failure before connecting, or a failure after some chunks. The model follows what `_download` does with it for S3, FTP and HTTP URLs.
- **The no-syspath lock.** A cache without a system path makes line 218 call `_NoOpFileLock()` without the argument its constructor requires (line 32). The model gives that path the error `MissingLockArgument`, the `TypeError` the call raises, rather than a working lock.
- **The `end` argument.** `SelectiveRowGenerator` stores `end` but never reads it. The model has no such setting.
- **With no rows at all**, `SelectiveRowGenerator.__iter__` reaches `yield row` with `row` unbound. The model returns `UnboundLocalError`, after the coalesced header when headers were already collected.
- **Generators are sequences.** The rows a generator yields are modelled as the sequence it yields in full. Laziness, and rows consumed by other readers of the same iterator, are not modelled.

## Model

| member | source | states |
|---|---|---|
| CacheKey.KeyWithoutQuery | rowgenerators/appurl/web/download.py:177 | without a query the key is `netloc/` followed by the path with its outer slashes stripped |
| CacheKey.KeyWithQuery | rowgenerators/appurl/web/download.py:177-184 | with a query the key is `dirname/digest/basename` of the query-less key, and its basename is unchanged |
| CacheKey.PlainKeyShape | rowgenerators/appurl/web/download.py:177 | the query-less key is `netloc/` followed by the stripped path (just the path for an empty netloc), and never starts with a slash |
| CacheKey.KeySeparatesQueries | rowgenerators/appurl/web/download.py:180-184 | two queries with different digests give different keys for the same netloc and path |
| CacheKey.KeySeparatesQueryFromNone | rowgenerators/appurl/web/download.py:177-184 | a URL with a query never shares its key with the same URL without one |
| CacheKey.KeyIgnoresScheme | rowgenerators/appurl/web/download.py:165-184 | the key does not depend on the scheme, for any two schemes that agree on `;params` |
| CacheKey.HttpAndHttpsShareKey | rowgenerators/appurl/web/download.py:165-184 | `http:` and `https:` URLs with the same remainder share a key |
| CacheKey.KeyIgnoresFragment | rowgenerators/appurl/web/download.py:165-184 | appending a fragment does not change the key |
| CacheKey.KeyIsRelative | rowgenerators/appurl/web/download.py:165-184 | every key is a relative path (it never starts with `/`) |
| CacheKey.NetlocHasNoSlash | rowgenerators/appurl/web/download.py:169-172 | the netloc the key starts with never contains `/` |
| UrlSplit.LocationIgnoresScheme | rowgenerators/appurl/web/download.py:169-172 | netloc, path and query do not depend on the scheme name |
| UrlSplit.FragmentOnlyChangesFragment | rowgenerators/appurl/web/download.py:169-172 | appending `#f` to a URL without a fragment changes only the fragment component |
| CacheStore.Normpath | rowgenerators/appurl/web/download.py:186-191 | the path the store works on: relative, with no trailing slash, and without empty or `.` components |
| CacheStore.NormpathTrailing | rowgenerators/appurl/web/download.py:186-191 | a trailing slash names the same entry |
| CacheStore.NormpathRStrip | rowgenerators/appurl/web/download.py:186-191 | so do any number of trailing slashes |
| CacheStore.NormpathSplit | rowgenerators/appurl/web/download.py:186-191 | a path names its directory part's entry extended by its base name, or the directory itself when the base name is empty or `.` |
| CacheStore.NormpathOfDirname | rowgenerators/appurl/web/download.py:186-191 | `dirname(p)` names what the part before the last slash names |
| CacheStore.NormpathSlashName | rowgenerators/appurl/web/download.py:186-191 | appending `/name` resolves to the child `name` of what the prefix resolves to |
| CacheStore.MakedirsMadeTarget | rowgenerators/appurl/web/download.py:191 | a `makedirs` without `recreate` that succeeds made a path that was not there |
| CacheStore.ChildOfAbsent | rowgenerators/appurl/web/download.py:191-200 | in a tree, nothing lies under a path that is absent |
| CacheStore.FreshChild | rowgenerators/appurl/web/download.py:191-200 | `makedirs` adds only the path and its ancestors, so a child that was free stays free |
| CacheStore.LineageNoLonger | rowgenerators/appurl/web/download.py:191 | no directory made on the way up is longer than the path asked for |
| CacheStore.MakedirsWalk | rowgenerators/appurl/web/download.py:191 | the walk up from `p` decides `makedirs`: a file where it stops is `DirectoryExpected`, nothing missing without `recreate` is `DirectoryExists`, otherwise exactly the missing paths become directories |
| CacheStore.FirstPresentAfterMissing | rowgenerators/appurl/web/download.py:191 | the first existing path on the way up comes right after the missing ones |
| CacheStore.LineageOfMember | rowgenerators/appurl/web/download.py:191 | the ancestors of an ancestor are a suffix of the ancestors |
| CacheStore.AncestorsAreDirectories | rowgenerators/appurl/web/download.py:191 | in a tree, every proper ancestor of an entry is a directory |
| CacheStore.MakedirsCreates | rowgenerators/appurl/web/download.py:191 | a successful `makedirs` keeps the tree a tree, leaves `p` a directory, keeps every entry, and adds only directories on the way up to `p` |
| CacheStore.MakedirsRefusesFile | rowgenerators/appurl/web/download.py:191-192 | `makedirs` raises `DirectoryExpected` exactly when `p` or one of its ancestors is a file |
| CacheStore.RemoveKeepsTree | rowgenerators/appurl/web/download.py:224 | removing a file keeps the tree a tree |
| CacheStore.Store.GetSysPath | rowgenerators/appurl/web/download.py:146 | `getsyspath` is the path under the system root, or `NoSysPath` for a cache without one |
| CacheStore.Store.Makedirs | rowgenerators/appurl/web/download.py:191 | resolves the path, walks up to the first existing path; the new entries and the error are those of `MakedirsOutcome` on the resolved path, and the tree stays a tree |
| CacheStore.Store.Remove | rowgenerators/appurl/web/download.py:224 | removes the file the path resolves to, refuses a directory, the root or a missing path, and keeps the tree |
| CacheStore.Store.OpenWrite | rowgenerators/appurl/web/download.py:272 | creates or truncates the file the path resolves to when its parent is a directory and it is not one; the root and directories are refused |
| CacheStore.Store.Write | rowgenerators/appurl/web/download.py:289 | appends the bytes to the open file and changes nothing else |
| Download.ProgressPerChunk | rowgenerators/appurl/web/download.py:285-294 | one report per chunk, carrying the chunk's length and the bytes written so far |
| Download.PrefixStep | rowgenerators/appurl/web/download.py:287-294 | one more chunk read adds its bytes to the file and one report to the list |
| Download.RunningTotal | rowgenerators/appurl/web/download.py:291 | each report's total is the previous total plus the length just read |
| Download.TransferSucceeds | rowgenerators/appurl/web/download.py:255-336 | `_download` succeeds exactly when everything arrived and the file could be opened, and the file then holds every byte |
| Download.InterruptPassesThrough | rowgenerators/appurl/web/download.py:271-275 | a `KeyboardInterrupt` leaves `_download` unwrapped, even from the S3 branch |
| Download.HttpStatusSurfaces | rowgenerators/appurl/web/download.py:321-325 | for an outcome the libraries can produce, `_download` raises `HTTPError` exactly on an HTTP status failure, unwrapped, before the cache file is opened and with the store untouched |
| Download.TransferNeverDeniesAccess | rowgenerators/appurl/web/download.py:255-336 | `_download` itself never raises `AccessError` |
| Download.DiscardLeavesNoFile | rowgenerators/appurl/web/download.py:248-249 | after the cleanup no file is left at the key; a directory or the root there makes the cleanup raise `FileExpected` |
| Download.SiblingShape | rowgenerators/appurl/web/download.py:199 | the `i`-th sibling key is `dn + str(i)`, a slash and the basename, and is relative |
| Download.SiblingDirname | rowgenerators/appurl/web/download.py:199-200 | the directory line 200 creates is `dn + str(i)` |
| Download.PickFirst | rowgenerators/appurl/web/download.py:197-203 | the retry keeps the first sibling whose `makedirs` succeeds; every one before it met a file |
| Download.PickGivesUp | rowgenerators/appurl/web/download.py:197-208 | the retry gives up after ten `DirectoryExpected`, or at the first attempt that fails otherwise |
| Download.SiblingSearchFirst | rowgenerators/appurl/web/download.py:197-208 | a successful search settles on sibling `j < 10`, whose directory is newly made, after `j` attempts that met files |
| Download.SiblingCreatedFresh | rowgenerators/appurl/web/download.py:197-201 | the sibling key the retry settles on is not yet in the cache after its directory is made, unless its base name is empty or `.`, when it is that directory |
| Download.SiblingResolves | rowgenerators/appurl/web/download.py:199-200 | a sibling key resolves to the basename under the sibling directory, or to the directory itself |
| Download.LocalCandidates | rowgenerators/appurl/web/download.py:117-122 | the places a local file is looked for: the path and the path without its leading slashes for an absolute path, the path and the path under the working directory for a relative one |
| Download.Downloader.constructor | rowgenerators/appurl/web/download.py:68-89 | a downloader over the cache, with no reports and `clean` off |
| Download.Downloader.Copy | rowgenerators/appurl/web/download.py:283-297 | the file grows by every chunk, and with a callback the FTP running-total reports are made |
| Download.Downloader.Transfer | rowgenerators/appurl/web/download.py:255-336 | the `download` callback, then the S3, FTP or HTTP branch; the error, the cache and the reports are as `TransferError`, `TransferEntries` and `TransferReports` say |
| Download.Downloader.FetchS3 | rowgenerators/appurl/web/download.py:265-275 | the file is opened first, and every failure but an interrupt is wrapped in `DownloadError` |
| Download.Downloader.FetchFtp | rowgenerators/appurl/web/download.py:277-298 | connect, open, then copy with the running-total callback |
| Download.Downloader.FetchHttp | rowgenerators/appurl/web/download.py:317-336 | GET and status check, then open and copy; an SSL failure becomes `DownloadError`; a status failure leaves the cache alone |
| Download.Downloader.RetrySiblings | rowgenerators/appurl/web/download.py:195-208 | the loop's key and cache are those of `SiblingSearch` on the old cache |
| Download.Downloader.MakeRoom | rowgenerators/appurl/web/download.py:186-208 | an existing key is kept untouched; otherwise its directory is made, or a sibling's, or the original `DirectoryExpected` is raised with the cache unchanged |
| Download.Downloader.Locked | rowgenerators/appurl/web/download.py:220-251 | result, store and reports are those of `LockedRun` on the old ones: a cache hit without `clean` returns no timestamp and fetches nothing; otherwise the entry is removed first, a success returns `now`, an HTTP error becomes `AccessError`/`DownloadError` with no cleanup, and any other failure is re-raised after the entry at the key is removed, or becomes the cleanup's `FileExpected` when a directory is there |
| Download.LockedResult | rowgenerators/appurl/web/download.py:220-251 | of `LockedRun`: no timestamp exactly on a cache hit without `clean`, which leaves store and reports alone; a timestamp means the whole download is in the file at the key; after a failure no file is left at the key for an outcome the libraries can produce; a failure other than a classified HTTP error leaves no file whatever the outcome, unless a directory there makes the cleanup raise `FileExpected`; `AccessError` only for status 403 |
| Download.RoomFacts | rowgenerators/appurl/web/download.py:186-208 | of `Room`: the store stays a tree; a cached key is kept as it is; a failure keeps the original key and the store; a different key is the `j`-th sibling, `j < 10`; the key ends up free unless it was cached, or resolves to the directory made for it when its base name is empty or `.` |
| Download.DownloadRunResult | rowgenerators/appurl/web/download.py:150-253 | of `DownloadRun`: a cached key without `clean` is a hit that changes nothing, and a run without a timestamp is always a hit; a key whose base name is empty or `.` is never fetched; a timestamp means the whole resource of the slash-replaced URL is in the file; without a system path nothing is fetched; `AccessError` only for status 403; a failure leaves no file at the key for a plausible outcome |
| Download.CacheKeys | rowgenerators/appurl/web/download.py:165-184 | the key of every URL is `CacheKey.Key`, a relative path |
| Download.Downloader.DownloadWithLock | rowgenerators/appurl/web/download.py:150-253 | the key, the result, the store and the reports are those of `DownloadRun` on the old store, with the backslashes of the URL replaced before it is fetched and reported |
| Download.Downloader.Download | rowgenerators/appurl/web/download.py:103-148 | a local file is found among the candidates, or `DownloadError` naming them, without touching the cache; other URLs go through the cache as `RetryEffect` says, with the keys of `CacheKeys` |
| Download.Downloader.DownloadRemote | rowgenerators/appurl/web/download.py:134-146 | `RetryEffect`: the first run's `AccessError` is retried once with the authenticated URL, and only when there is one; every other failure, and the retry's, leaves unchanged; a success is the resource at the run's key with its system path |
| Sources.Source.constructor | rowgenerators/generators.py:80-92 | a new source has no limit |
| Sources.Source.Iterate | rowgenerators/generators.py:112-128 | `start()` before and `finish()` after; the output is a prefix of the rows holding exactly the rows whose index passes the limit |
| Sources.LimitCount | rowgenerators/generators.py:117-121 | with a limit `L` the output holds `min(n, L + 1)` rows (none for a negative `L`); without one, all of them |
| Sources.Slices | rowgenerators/generators.py:365-374 | the slices exist exactly when every column has a start and a width, and are `[start - 1, start + width - 1)` in column order; otherwise the error names a column without one |
| Sources.MakeParser | rowgenerators/generators.py:358-378 | no columns is a `SourceError`; otherwise the slices |
| Sources.SliceBound | rowgenerators/generators.py:374 | a Python slice bound lands inside the sequence |
| Sources.PySlice | rowgenerators/generators.py:374 | a Python slice is never longer than its sequence |
| Sources.ParseLine | rowgenerators/generators.py:376-378 | one field per slice |
| Sources.FieldOfColumn | rowgenerators/generators.py:374-378 | each field is at most its column's width, and exactly `line[start - 1 .. start + width - 1]` when the line is long enough |
| Sources.FixedRow | rowgenerators/generators.py:393 | one stripped field per column |
| Sources.FixedRows | rowgenerators/generators.py:384-395 | a bad schema fails before any row; otherwise one row per line, each the stripped fields of that line |
| Sources.FixedFieldTrimmed | rowgenerators/generators.py:393 | each field has no whitespace at its ends and is a piece of its column's slice |
| Sources.FixedHeaders | rowgenerators/generators.py:381-382 | one header per column: its name, or its position exactly when the name is empty |
| Sources.ConvertColumn | rowgenerators/generators.py:549-564 | the name is kept; the type is cut at its first `:` |
| Sources.GetColumns | rowgenerators/generators.py:566-588 | `id` first, the converted columns in order, `geometry` last: `n + 2` columns |
| Sources.SocrataUrlRecoverable | rowgenerators/generators.py:201-202 | the URL ends in `/rows.csv`, and cutting that off gives the dataset URL back |
| Sources.GoogleUrlRecoverable | rowgenerators/generators.py:530-535 | the export URL asks for CSV and the sheet key can be read back from it |
| Coalesce.FilledIsNearest | rowgenerators/generators.py:727-734 | a filled cell is the nearest non-blank cell at or left of it, and nothing when all of them are blank |
| Coalesce.FillForward | rowgenerators/generators.py:727-734 | the forward fill with its running `last` gives the filled value at every position |
| Coalesce.CollapseSpaceTidy | rowgenerators/generators.py:739 | collapsing whitespace leaves only single plain spaces |
| Coalesce.NormalizeTidy | rowgenerators/generators.py:739 | a normalized header has no whitespace at its ends and single spaces inside |
| Coalesce.NonEmpty | rowgenerators/generators.py:717 | the non-empty header rows, from the input, in order; none exactly when every row is empty |
| Coalesce.NonEmptyKeeps | rowgenerators/generators.py:717 | every non-empty header row is kept |
| Coalesce.MinLen | rowgenerators/generators.py:736-737 | the length of the shortest row, where `zip` stops |
| Coalesce.ColumnCells | rowgenerators/generators.py:736-737 | one cell per row: the stripped filled value, or `''` |
| Coalesce.JoinFilledCoalesced | rowgenerators/generators.py:727-741 | joining the columns of the filled copies gives the coalesced header |
| Coalesce.CoalescedCases | rowgenerators/generators.py:714-741 | `None` without headers, `[]` when all are empty, the single row when there is one; otherwise as long as the shortest row, each column its filled cells joined and tidied |
| RowStreams.DataRowWindow | rowgenerators/generators.py:662-663 | the window is accepted exactly when `start > 0`; otherwise `AssertionError` |
| RowStreams.DefaultStartRejected | rowgenerators/generators.py:646-663 | the default `start=0` is rejected |
| RowStreams.DataRowsSlice | rowgenerators/generators.py:666-673 | the kept rows are the contiguous slice from `start` to `end` inclusive, cut at the end of the input |
| RowStreams.LineNumbers | rowgenerators/generators.py:695 | `int(e)` for each non-empty part; no more numbers than parts |
| RowStreams.LineNumbersSkipEmpty | rowgenerators/generators.py:695 | an empty part anywhere changes nothing |
| RowStreams.LineNumbersOfDecimals | rowgenerators/generators.py:695 | reading back `str(n)` for each number gives the numbers |
| RowStreams.HeaderTextRoundTrip | rowgenerators/generators.py:695 | the comma-joined header-line text parses back to the same line numbers |
| RowStreams.Configure | rowgenerators/generators.py:694-705 | a falsy start becomes 1, header text is parsed first (its error wins), and a negative start is an `AssertionError` |
| RowStreams.Consumed | rowgenerators/generators.py:745-753 | the scan never reads more rows than there are |
| RowStreams.FakeHeader | rowgenerators/generators.py:760 | one made-up name per cell |
| RowStreams.FakeHeaderDistinct | rowgenerators/generators.py:760 | the made-up names `col0`, `col1`, … all differ |
| RowStreams.SelectiveRowGenerator.constructor | rowgenerators/generators.py:680-705 | no headers and no comments yet |
| RowStreams.SelectiveRowGenerator.CoalesceHeaders | rowgenerators/generators.py:709-741 | the result is the coalesced header, computed on copies so that `headers` is unchanged |
| RowStreams.SelectiveRowGenerator.Scan | rowgenerators/generators.py:745-753 | reads up to and including the start row; header rows go to `headers` (only with `load_headers`) and comment rows to `comments` |
| RowStreams.SelectiveRowGenerator.Iterate | rowgenerators/generators.py:743-765 | the header (coalesced or made up from the last row read), then the start row or the last row read, then every later row; with no rows, `UnboundLocalError` |
| RowStreams.DataFollowsStart | rowgenerators/generators.py:752-765 | when the input reaches the start row, the data emitted is exactly the rows from `start` on |
| RowStreams.HeaderWinsOverComment | rowgenerators/generators.py:747-751 | a row listed as both header and comment goes to the headers only |
| RowStreams.GatherHas | rowgenerators/generators.py:745-751 | every scanned row lands in the list its role names |
| RowStreams.ZipDictContents | rowgenerators/generators.py:787 | the dictionary has a key for each position up to the shorter length, holding the value at the key's last position |
| RowStreams.ZipDictOnlyKeys | rowgenerators/generators.py:787 | every key of the dictionary comes from a paired position |
| RowStreams.StripAll | rowgenerators/generators.py:784 | one stripped key per cell |
| RowStreams.FirstKeyRow | rowgenerators/generators.py:783-785 | the first non-empty row; every row before it is empty |
| RowStreams.DictRows | rowgenerators/generators.py:777-787 | one dictionary per row after the first non-empty row, zipping its stripped cells with that row |
| SqlUrl.MatchVariant | rowgenerators/appurl/sql.py:89-91 | `SqlDsn` exactly for `sql`, `OracleSql` exactly for `oracle`, never the base `Sql` |
| SqlUrl.FormatPlaceholder | rowgenerators/appurl/sql.py:43 | a password that is one placeholder takes the variable's value, or fails naming it |
| SqlUrl.FormatEscape | rowgenerators/appurl/sql.py:43 | a password with its braces doubled formats to itself in any environment |
| SqlUrl.FormatPositional | rowgenerators/appurl/sql.py:43 | a field of digits only asks for a positional argument, which `format` without any raises as `IndexError` |
| SqlUrl.FormatPlain | rowgenerators/appurl/sql.py:43 | a password without braces is left as it is |
| SqlUrl.InterpolatePassword | rowgenerators/appurl/sql.py:42-46 | no password is an `AttributeError`; the `KeyError` of a missing variable, and only it, becomes `RowGeneratorError`; otherwise the formatted text |
| SqlUrl.PasswordFromEnvironment | rowgenerators/appurl/sql.py:42-46 | `{NAME}` takes the variable's value, or raises `RowGeneratorError` naming it |
| SqlUrl.Url.constructor | rowgenerators/appurl/sql.py:71-74 | the parts as given; a missing DSN table is an empty one |
| SqlUrl.Url.DsnName | rowgenerators/appurl/sql.py:93-97 | the DSN name is the host name |
| SqlUrl.Url.SqlQuery | rowgenerators/appurl/sql.py:50-53 | fragment slot 0, or `IndexError` exactly when the fragment is empty |
| SqlUrl.Url.SetSqlQuery | rowgenerators/appurl/sql.py:55-58 | writes slot 0 only; reading it back gives the value |
| SqlUrl.Url.Clone | rowgenerators/appurl/sql.py:40 | a new URL with the same parts |
| SqlUrl.Url.Dsn | rowgenerators/appurl/sql.py:33-48 | a fresh clone with an empty fragment and the interpolated password, or the interpolation's error; this URL is untouched |
| SqlUrl.Url.GetResource | rowgenerators/appurl/sql.py:76-87 | `Sql` and `OracleSql` return themselves (lines 27-28); `SqlDsn`: `AppUrlError` naming a DSN missing from the table; otherwise the parse of its connection URL with this URL's query in fragment slot 0 and every other part from the parse |
| SqlUrl.Url.GetTarget | rowgenerators/appurl/sql.py:30-31 | the URL itself |

## Left out

- The byte transfer: the `requests` streaming and its gzip patch, `ftplib` and S3 `download_fileobj`. They are network I/O, so the remote side is an `Outcome`. `copy_file_or_flo` is not part of this model; its reports are not modelled, only the FTP read callback's.
- File locking and concurrency: the locked region is a plain sequential block, and the cache is not changed by other processes between the two existence checks.
- `logger` calls and the text of exception messages. The errors keep only the data they name.
- `Resource.__str__`, `Downloader.cache`'s default (a temporary directory) and `account_accessor`. They play no part in the download outcome.
- `Downloader.download`: the local-file search takes the candidates as a set and returns any existing one, because Python's set iteration order is unspecified.
- The `Url` base class, `parse_app_url` and `str(u)` are not part of this model. A URL is a record of the parts the SQL classes use, the string form of a `dsn` clone is left as the clone itself, and setting `u.fragment = []` is taken to clear the fragment list.
- `Sql.__init__`'s read of `self.username` and its saved `_orig_url`/`_orig_kwargs`. They are never used by the modelled operations.
- `Url._match` for the base `Sql` class. It is inherited from the base class, which is not part of this model, so `MatchVariant` never yields `Sql`.
- SqlUrl.Format: models `str.format` with keyword arguments for plain `{name}` fields only. A field of digits only is positional and fails with `IndexError`; any other name is looked up as a keyword. Format specs, conversions, attribute and index lookups and nested braces inside a field are not modelled.
- Non-integer or non-`None` values of `start`, `width` or `end`. The model's types admit only integers and `None`. Likewise, cells are strings, so the `text_type(...)` conversions are identities.
- ParseInt: accepts ASCII digits only, not the other Unicode digits Python's `int()` accepts, and no `_` separators.
- `FixedSource.__iter__` reads its lines from `self._fstor`. The lines are a parameter here.
- `FixedSource.make_fw_row_parser` builds its parser with `eval`. The model states the slices directly.
- `ShapefileSource._get_columns` takes the `SortedDict` of shapefile columns as the sequence of its items, already in order.
- The other sources (`CsvSource`, `ExcelSource`, `PandasDataframeSource`, `MetapackSource`, Socrata metadata, Google authenticated sources, shapefile rows, `MPRSource`, `AspwCursorSource`) are thin wrappers over external libraries.
- `RowGenerator` and `SourceSpec`: `FixedSource` takes its columns, and the download URL builders their URL or netloc, directly.
- CacheStore.Normpath: resolves empty and `.` components and repeated and trailing slashes, as the filesystem does; `..` is kept as an ordinary name rather than climbing out of its directory, and the root-escaping error it would raise is not modelled.
- Errors of the store name the resolved path rather than the path as given.
- Download.Plausible: the remote side is an arbitrary `Outcome`, which can also fail with an HTTP status midway or on an S3 or FTP URL, where the libraries cannot. The properties below are stated for the outcomes `Plausible` admits (an HTTP status failure only from an HTTP URL, before anything is read).
- HttpStatusSurfaces: holds for plausible outcomes only.
- FetchHttp: leaves the cache alone on a status failure only for plausible outcomes; an implausible midway status failure is copied and reported like any other midway failure.
- LockedResult: the no-file promise for every failure holds for plausible outcomes; for any outcome it holds for the failures other than classified HTTP errors.
- DownloadRunResult: the no-file promise holds for plausible outcomes of the slash-replaced URL.
- Download.Downloader.DownloadWithLock: takes the key function as a parameter; `Download` passes `CacheKeys`, the cache key of lines 165-184.
- `Sql.match_priority`: a constant one below the base class's priority; the model has the function but no property to state about it.
- UrlSplit.Parse: does not reject the URLs `urlsplit` refuses (invalid IPv6 netlocs, bad ports) and does not strip the control characters Python removes first.
