# proxy-manager in Dafny

A model of the core of **proxy-manager**, a Python package that harvests free
HTTP proxies from public lists, stores them in a SQLite table keyed by
`(ip, port)`, probes them for liveness and hands out working ones, fastest
first.

The model has seven modules, one per source file plus a module of Python string
helpers:

- `Text` (`text.dfy`) holds the Python built-ins the core relies on, as
  functions over `seq<char>`, each with its inverse or characterisation:
  `str.split(sep)` and `sep.join`, `strip()`, `lower()`, `str(int)` and `int(str)`.
  `strip()` removes the 29 characters `str.isspace()` accepts. `int()` ignores
  the same characters around its digits, except the separators \x1c-\x1f.
- `Models` (`models.dfy`) is `proxy_manager/models.py`. It has the frozen
  `Proxy` record, where datatype equality matches the generated `__eq__`, and the
  `ip:port` / `protocol://ip:port` formats. It also has the URL parse
  `mark_proxy_as_failed` applies, with its round trip.
- `ProxyRecord` (`proxy.dfy`) is `proxy_manager/proxy.py`: the mutable proxy
  object, as a class whose verdict, latency and timestamp fields change.
- `Store` (`store.dfy`) is `proxy_manager/manager.py`.
  - The `proxies` table is a `map<Key, Row>`.
  - Each SQL statement is given its relational meaning as a function on that map
    (`Upsert`, `AllOutdated`, `MarkFailed`, `Cleanup`, `Qualifying`, `Stats`).
  - `ORDER BY response_time ASC LIMIT n` is a selection loop. It is proved to
    meet `IsOrderedSelection`: only admitted rows, no duplicates, every admitted
    row when fewer than `n` come back, ascending latency, and no faster row left
    out. SQLite's NULL-first order is modelled explicitly.
  - `class ProxyManager` holds the table, and its methods are proved to move it
    exactly as those functions say.
- `StoreProperties` (`store_properties.dfy`) holds lemmas that relate several
  store operations.
- `Collector` (`collector.dfy`) is `proxy_manager/collector.py`.
  - It covers the text-list parse of `collect_from_url`, where a line with extra
    colons ends that source's parse.
  - It covers `collect_all`'s concatenate / de-duplicate / save pipeline, and
    the `ValueError` a port `int()` rejects raises there.
- `Checker` (`checker.dfy`) is `proxy_manager/checker.py`.
  - `check_proxy` runs over an abstract probe outcome.
  - `get_unchecked_proxies` is a selection over never-probed rows.
  - `check_random_proxies` is an order-preserving filter of those.
- `Sources` (`sources.dfy`) is `BaseSource.extract_proxies_from_text`, the
  lenient line parser of `proxy_manager/sources/base.py`.

How the outside world enters the model:

- Time is integer seconds, and `now` or `currentTime` is a parameter. An
  hours window is `maxAgeHours * 3600`, a days window `maxAgeDays * 86400`.
- A latency is a `nat`, and a stored latency is `Option<nat>`, where `None` is
  SQL NULL.
- Each HTTP exchange is a parameter:
  - a collector fetch is a function from URL to `Response` (an exception, or a
    status and the lines of the body);
  - the checker's probe is a function to `ProbeOutcome` (an exception, or a
    status and the elapsed time) from the protocol, ip and port that
    `check_proxy` formats into its proxy URL (proxy_manager/checker.py:36).
    The URL is a function of those three, so this loses no generality;
  - the GeoNode JSON decoder is a function from body lines to entries.
- `ipaddress.ip_address` is a parameter returning an optional `IpAddress` with
  the six classifications `is_valid_public_ip` tests.
- `ORDER BY RANDOM()` is a nondeterministic choice (`:|`).

## Model

| member | source | states |
|---|---|---|
| Text.JoinSplit | proxy_manager/collector.py:80 | `str.split(sep)` loses nothing: joining its pieces with `sep` gives back the original string |
| Text.SplitPair | proxy_manager/collector.py:80 | a string made of two colon-free parts joined by ':' splits into exactly those two parts |
| Text.StripCharacterised | proxy_manager/sources/base.py:21 | `strip()` returns a contiguous infix of its input: only whitespace is taken off either end, and the result neither starts nor ends with whitespace. This holds both for the 29 characters `str.isspace()` accepts and for the narrower set `int()` ignores |
| Text.StripKeepsColons | proxy_manager/collector.py:79-80 | stripping neither adds nor removes a ':'; so the raw-line test for ':' and the split of the stripped line agree |
| Text.ParseInteger | proxy_manager/collector.py:124 | `int(s)` succeeds exactly when `s`, once stripped of the whitespace `int()` ignores (every `str.isspace()` character except the separators \x1c-\x1f), is an optional sign followed by decimal digits |
| Text.ParseIntToString | proxy_manager/collector.py:124 | `int(str(n)) == n` for every integer |
| Text.ParseIntegerExamples | proxy_manager/collector.py:124 | `int()` gives 80 for "80", "080" and "+80", and rejects "8a" |
| Text.PaddedIntegerParses | proxy_manager/sources/base.py:25 | `int(" 80 ")` is 80, since surrounding whitespace is ignored; `int("80\x1f")` raises, since the unit separator is not |
| Models.ParseProxyUrl | proxy_manager/manager.py:229-231 | the URL parse fails, with `IndexError`, exactly when no ':' follows the last "://"; on success ip and port are colon-free |
| Models.FormatUrlRoundTrip | proxy_manager/manager.py:140 | for a colon-free protocol and ip, parsing `protocol://ip:port` as `mark_proxy_as_failed` does gives back the ip and the port's decimal text |
| Models.Proxy.Str | proxy_manager/models.py:15-16 | `__str__` starts with the ip and a ':', and `int()` reads the rest back as the port |
| Models.Proxy.Url | proxy_manager/models.py:18-21 | `url` is the `protocol://ip:port` format the store prints and parses (`FormatUrl`) |
| Models.Proxy.IsValidProtocol | proxy_manager/models.py:23-26 | defined as `protocol.lower()` being "http" or "https"; characterised letter by letter in `ValidProtocolCharacterised` |
| Models.Proxy.IsValidPublicIp | proxy_manager/models.py:28-42 | defined as false when the ip does not parse, otherwise as none of the six non-public classifications holding; see `UnparsableIpIsNotPublic` |
| Models.StrRoundTrip | proxy_manager/models.py:15-16 | `__str__` splits on ':' into the ip and the port's digits, and `int()` of those digits is the port |
| Models.UrlRoundTrip | proxy_manager/models.py:18-21 | `url` is the shared `protocol://ip:port` format, and the store's URL parse recovers the ip and port from it |
| Models.ValidProtocolCharacterised | proxy_manager/models.py:23-26 | `is_valid_protocol` holds exactly for "http" or "https" in any mix of letter cases |
| Models.ValidProtocolExamples | proxy_manager/models.py:23-26 | "HTTPS" and "Http" are valid protocols, "socks5" is not |
| Models.UnparsableIpIsNotPublic | proxy_manager/models.py:28-42 | an ip that `ip_address` rejects (the caught `ValueError`) is never a valid public ip |
| Models.ProxyDefaults | proxy_manager/models.py:5-13 | a record built from ip and port alone has protocol 'http', empty country and anonymity, and latency 0 |
| Models.SameAddressDistinctMembers | proxy_manager/models.py:5-13 | equality compares every field: two records with the same `ip:port` but another protocol or country are two set members |
| ProxyRecord.Proxy.constructor | proxy_manager/proxy.py:6-21 | identity and protocol as given ('http' by default); status, latency and both timestamps empty |
| ProxyRecord.Proxy.Url | proxy_manager/proxy.py:23-26 | defined as the shared `FormatUrl` of the object's protocol, ip and port; its round trip is `ProxyRecord.UrlRoundTrip` |
| ProxyRecord.UrlRoundTrip | proxy_manager/proxy.py:23-26 | the object's `url` is `protocol://ip:port` and, for a colon-free protocol and ip, parses back to its ip and port |
| Store.Upsert | proxy_manager/manager.py:366-380 | exactly one row for the key afterwards. A row is created only for a new key, with every column NULL and `is_outdated = 0`. A re-added key changes only protocol and collection date and clears `is_outdated`: status, latency, last check, country and anonymity are kept. Other rows are untouched |
| Store.ProxyManager.AddProxy | proxy_manager/manager.py:351-380 | the table after `add_proxy` is the upsert, with the collection date defaulting to `now` |
| Store.AllOutdated | proxy_manager/manager.py:74-79 | every row is flagged outdated and nothing else about any row changes |
| Store.ProxyManager.MarkAllOutdated | proxy_manager/manager.py:74-79 | the table after `mark_all_outdated` is that bulk flag |
| Store.MarkFailed | proxy_manager/manager.py:233-238 | exactly the rows whose ip equals the given ip and whose port the given port text denotes become failed with `last_check = now`; all other rows are unchanged; no row is added or removed |
| Store.ProxyManager.MarkProxyAsFailed | proxy_manager/manager.py:219-239 | the parse's `IndexError` is raised exactly when the URL lacks an ip:port part, and then the table is unchanged; otherwise the matching row is marked failed |
| Store.Cleanup | proxy_manager/manager.py:294-298 | a row is deleted exactly when it was collected before the cutoff or it failed with a last check before the cutoff (a NULL last check never qualifies); kept rows are unchanged |
| Store.ProxyManager.CleanupOldData | proxy_manager/manager.py:282-301 | the table after `cleanup_old_data` is that deletion, with cutoff `now - days * 86400` |
| Store.Matches | proxy_manager/manager.py:124-126 | defined as the three WHERE clauses: working, current and checked after the bound; working, current and collected after the bound; never probed (`status IS NULL`) and current. A NULL last check fails the comparison. What callers get from it is `StoreProperties.FilterGuarantees` |
| Store.TargetsKey | proxy_manager/manager.py:237 | defined as `ip = ? AND port = ?` with the port given as text: equal ip, and `int()` of the text is the row's port |
| Store.Expired | proxy_manager/manager.py:296-297 | defined as `collection_date < cutoff OR (status = 'failed' AND last_check < cutoff)`, a NULL last check never satisfying the comparison |
| Store.PickFastest | proxy_manager/manager.py:127 | the chosen key is one with the smallest latency of the set, NULL counting as smallest |
| Store.SelectOrdered | proxy_manager/manager.py:159-167 | the result meets `IsOrderedSelection`: at most `limit` distinct admitted rows; all admitted rows when fewer come back; ascending latency; no admitted row left out is faster than one taken |
| Store.SelectAny | proxy_manager/checker.py:79-85 | the result meets `IsSelection`: at most `limit` distinct admitted rows, and all of them when fewer come back |
| Store.ProxyManager.NeedsUpdate | proxy_manager/manager.py:81-105 | true exactly when fewer than 10 rows are working, current and collected within the window |
| Store.ProxyManager.GetWorkingProxy | proxy_manager/manager.py:107-142 | `None` exactly when no row is working, current and checked within the window; otherwise such a row of minimal latency, as a dictionary whose url is `protocol://ip:port` |
| Store.ProxyManager.GetWorkingProxies | proxy_manager/manager.py:144-177 | an ordered selection (as `SelectOrdered`) of rows working, current and checked within the window, each returned as its row's dictionary |
| Store.ProxyManager.GetRandomWorkingProxy | proxy_manager/manager.py:179-217 | `None` exactly when no row is working, current and collected within the window; otherwise some such row (any one) as its dictionary |
| Store.ProxyManager.GetMultipleWorkingProxies | proxy_manager/manager.py:241-280 | an ordered selection of rows working, current and collected within the window, each returned as its row's dictionary |
| Store.CheckedView | proxy_manager/manager.py:133-141 | the dictionary carries the row's key and copies its protocol, country, latency and last check; its url is `protocol://ip:port` from the row's protocol and the key |
| Store.CollectedView | proxy_manager/manager.py:207-217 | the dictionary carries the row's key and copies its protocol, latency and collection date; its url is `protocol://ip:port` from the row's protocol and the key |
| Store.Stats | proxy_manager/manager.py:312-331 | total is the row count; working, failed and unchecked count their statuses and add up to the total; outdated is at most the total; an empty table gives zeros |
| Store.ProxyManager.GetStatistics | proxy_manager/manager.py:303-349 | the counts of `get_statistics` are those of the current table |
| StoreProperties.FilterGuarantees | proxy_manager/manager.py:121-127 | the two working-proxy queries return only working, current rows (the checked one only rows last checked after the bound, the collected one only rows collected after the bound); the never-probed query shares no row with either; a later window bound can only drop rows |
| StoreProperties.OutdatedHidesEveryRow | proxy_manager/manager.py:74-79 | after `mark_all_outdated` no query filter admits any row, since every WHERE clause requires `is_outdated = 0` |
| StoreProperties.OutdatedQueriesAreEmpty | proxy_manager/manager.py:159-167 | every limited query over an invalidated table returns no rows |
| StoreProperties.ReaddedKeyIsOnlyCandidate | proxy_manager/manager.py:371-375 | after invalidation and one `add_proxy`, only the re-added key can be returned by any query |
| StoreProperties.SelectionSize | proxy_manager/manager.py:159-167 | a limited query returns exactly `min(limit, number of admitted rows)` rows |
| StoreProperties.FreshPoolFillsRequest | proxy_manager/manager.py:96-105 | when `needs_update` says no, `get_multiple_working_proxies` with a limit of at least 10 returns at least 10 rows |
| StoreProperties.MarkFailedByUrl | proxy_manager/manager.py:219-238 | failing the URL a query reported for a row (colon-free protocol and ip) marks that row failed and changes no other row |
| StoreProperties.MarkFailedWithoutMatch | proxy_manager/manager.py:233-238 | a failure report naming no stored key leaves the table as it was |
| StoreProperties.ReportedFailureLeavesWorkingQueries | proxy_manager/manager.py:233-238 | a row marked failed leaves both working-proxy queries, and the other rows they admit stay admitted |
| StoreProperties.CleanupIdempotent | proxy_manager/manager.py:294-298 | cleaning up twice with the same cutoff deletes nothing more |
| StoreProperties.UpsertIdempotent | proxy_manager/manager.py:366-380 | adding the same proxy twice with the same values is adding it once |
| StoreProperties.StatisticsExample | proxy_manager/manager.py:312-331 | one working, one failed and one unchecked row, none outdated, give total 3, working 1, failed 1, unchecked 1, outdated 0 |
| Collector.ProxyCollector.constructor | proxy_manager/collector.py:14-35 | the seven text sources and the two API sources, in their order |
| Collector.ParseLine | proxy_manager/collector.py:78-85 | a line without ':' is skipped. A line with ':' whose stripped form does not split into exactly two pieces is the unpacking error. Otherwise the line gives one entry with protocol 'http' whose colon-free ip and port text rejoin to the stripped line |
| Collector.ParseLines | proxy_manager/collector.py:78-93 | at most one entry per line, each well formed with protocol 'http' |
| Collector.ParseWellFormedLine | proxy_manager/collector.py:79-85 | a line `ip:port` with colon-free parts and no surrounding whitespace gives exactly the entry `(ip, port, 'http')` |
| Collector.TrailingSeparatorStripped | proxy_manager/collector.py:79-80 | `strip()` removes a trailing \x1f, so "1.2.3.4:80\x1f" gives the entry ("1.2.3.4", "80"), whose port `int()` accepts |
| Collector.ParseSkipsColonFreeLine | proxy_manager/collector.py:79 | a line without ':' can be removed anywhere without changing the parse |
| Collector.ParseStopsAtMalformedLine | proxy_manager/collector.py:80 | a line with extra colons ends the parse: only the entries before it are returned, whatever follows |
| Collector.TwoLineReply | proxy_manager/collector.py:78-85 | a body of two well-formed lines gives their two entries, in order |
| Collector.ProxyCollector.CollectFromUrl | proxy_manager/collector.py:37-93 | an exception or a status other than 200 gives no entries; the GeoNode API gives the decoder's entries; any other 200 reply gives the line parse, up to the first malformed line |
| Collector.ProxyCollector.FromResponse | proxy_manager/collector.py:37-93 | defined as no entries without a 200 reply, the decoder's entries for the GeoNode API, and the line parse otherwise; `CollectFromUrl` is proved against it |
| Collector.ProxyCollector.Harvest | proxy_manager/collector.py:99-108 | defined as the concatenation of each source's entries in source order; `HarvestAll` is proved against it |
| Collector.ProxyCollector.HarvestAll | proxy_manager/collector.py:99-108 | the combined list is the concatenation of each source's entries, in the order of the sources |
| Collector.Dedup | proxy_manager/collector.py:110-117 | never longer than its input; no two entries share an `ip:port` string; every string of the input is kept; only input entries appear |
| Collector.DedupIsFirstOccurrences | proxy_manager/collector.py:110-117 | de-duplication keeps exactly the first occurrence of each `ip:port` string, in input order |
| Collector.DedupExample | proxy_manager/collector.py:113-117 | a list holding one entry twice and another once keeps two entries |
| Collector.Deduplicate | proxy_manager/collector.py:110-117 | the loop with its `seen` set computes exactly that de-duplication |
| Collector.SaveEntries | proxy_manager/collector.py:120-127 | the save raises only `ValueError`, and does so exactly when some port is rejected by `int()`; no row is lost |
| Collector.LastProtocol | proxy_manager/collector.py:120-127 | the protocol of the last entry naming a key exists exactly when the key is among the entries' keys |
| Collector.LastProtocolCharacterised | proxy_manager/collector.py:120-127 | that protocol is the one of an entry naming the key that no later entry names again |
| Collector.SaveEntriesEffect | proxy_manager/collector.py:120-127 | without an exception, the table gains exactly the entries' `(ip, int(port))` keys and every other row is unchanged. Each saved key's row is exactly one upsert with the protocol of its last entry: that protocol, the shared harvest time, not outdated. A new key's row is otherwise empty. A re-harvested row keeps its status, latency, last check, country and anonymity |
| Collector.SaveStopsAtBadPort | proxy_manager/collector.py:121-127 | a rejected port raises `ValueError` with the entries before it saved and those after it not |
| Collector.SameNumberDifferentText | proxy_manager/collector.py:110-127 | two port texts that differ but denote the same number both pass the de-duplication, yet become one new row |
| Collector.LeadingZeroDuplicatesShareRow | proxy_manager/collector.py:110-127 | "x:080" and "x:80" are both kept and collapse into one record |
| Collector.ProxyCollector.SaveAll | proxy_manager/collector.py:119-127 | the store after the save loop, and the exception it ends with, are those of `SaveEntries` |
| Collector.ProxyCollector.CollectAll | proxy_manager/collector.py:95-129 | the store ends as the save of the de-duplicated concatenation of all sources' entries, with one harvest time |
| Checker.ProxyChecker.constructor | proxy_manager/checker.py:14-23 | the checker keeps its store, probes "http://api.ipify.org?format=json" and has reported nothing yet |
| Checker.ProxyChecker.CheckProxy | proxy_manager/checker.py:25-65 | true exactly for a 200 reply. That marks the proxy working with the elapsed time; anything else, an exception included, marks it failed and keeps its latency. The proxy is reported once, after its status is set, and its dates are untouched |
| Checker.ProxyChecker.GetUncheckedProxies | proxy_manager/checker.py:67-91 | a selection of never-probed, current rows, each as a fresh, distinct object with the row's ip, port and protocol and nothing probed |
| Checker.Survivors | proxy_manager/checker.py:106-108 | the working filter of `check_random_proxies`, defined as the candidates whose probe passes, in order; never longer than its input |
| Checker.SurvivorsCharacterised | proxy_manager/checker.py:106-108 | a proxy is kept exactly when it is a candidate whose probe passed |
| Checker.SurvivorsAppend | proxy_manager/checker.py:106-108 | the filter keeps relative order: survivors of a concatenation are the concatenated survivors |
| Checker.ProxyChecker.ProbeEach | proxy_manager/checker.py:106-108 | each candidate is checked once, in order. The result is exactly the ones that passed, in order, and each ends with its probe's verdict. The reports are appended in order |
| Checker.ProxyChecker.CheckRandomProxies | proxy_manager/checker.py:93-110 | the never-probed selection as new objects, each carrying its record's protocol, which the probe uses; they are probed once each, in order. The working ones are returned, in order, and are never more than `limit`. Each candidate carries its verdict and is reported once |
| Sources.LineProxy | proxy_manager/sources/base.py:20-29 | a produced proxy has protocol 'http', the other fields at their defaults, and a public address |
| Sources.LineProxyCharacterised | proxy_manager/sources/base.py:21-27 | a line yields `p` exactly when its stripped form is an ip text and a port text joined by its only ':'. Then `p` has the stripped ip, `int()` of the stripped port text and default fields, and `p`'s address is public |
| Sources.Extracted | proxy_manager/sources/base.py:19-30 | defined as the set of the proxies among the lines' results, taken in order (`LineResults`, `Gathered`); characterised in `ExtractedCharacterised` |
| Sources.ExtractProxiesFromText | proxy_manager/sources/base.py:17-30 | the loop returns exactly the set of what the lines yield |
| Sources.ExtractedCharacterised | proxy_manager/sources/base.py:19-30 | every element comes from some line, and every line's proxy is in the set |
| Sources.BadLineSkipped | proxy_manager/sources/base.py:23-29 | a line with extra colons, a bad port or a non-public address can be removed without changing the result: it never stops the lines after it |
| Sources.RepeatedLineOnce | proxy_manager/sources/base.py:19-27 | a repeated line adds nothing: the result is a set |
| Sources.ExtractedSize | proxy_manager/sources/base.py:19-30 | there are never more proxies than lines |

## Left out

- SQLite plumbing is not modelled: connections, `_setup_database`, indexes, commit and close. The table is a map, and each statement has its relational meaning.
- Logging is not modelled, including the statistics dump of `get_statistics`.
- Network I/O and the aiohttp sessions are parameters: a fetch gives a `Response`, a probe gives a `ProbeOutcome`. `asyncio.gather` and async/await are left out, and only the source-ordered result list is kept.
- `text.splitlines()` is left out: a body or text is given as its lines.
- The JSON decoding of the GeoNode reply is an abstract decoder parameter.
- `ipaddress.ip_address` and its classifications are an abstract parser parameter.
- Floating point is not modelled. Latencies are whole numbers, and `avg_response_time` with its `round` is not modelled. `Stats` has no average, oldest or latest field.
- Timestamps are integers with `now` as a parameter, so ISO strings are not modelled.
- The lexicographic comparison of ISO strings is not modelled, nor the UTC `CURRENT_TIMESTAMP` written by `mark_proxy_as_failed` next to local-time strings.
- SQLite type affinity is not modelled. A text port matches an integer column when `int()` of the text is that integer (`Store.TargetsKey`).
- A negative `LIMIT` (unlimited in SQLite) is excluded: limits are `nat`.
- `int()` does not accept digit-group underscores or non-ASCII digits.
- `lower()` is ASCII-only.
- `ProxyManager.update_proxy_status`, which `check_proxy` calls, is not defined in `manager.py`. It is modelled as an append to the checker's `statusUpdates` log, and its effect on the table is not modelled.
- `get_proxies` and the four concrete source adapters are left out, because they fetch over HTTP and parse formats the model does not cover. `github` and `proxylist_download` fetch a text body and hand it to `extract_proxies_from_text`, which is modelled. `proxylist_download` then rebuilds each proxy with the protocol it requested. `freeproxylist` parses an HTML table and builds each `Proxy` itself, with country, anonymity, and 'https' or 'http' from the https column, keeping public addresses. `geonode` decodes JSON and builds each `Proxy` from the item's ip, `int()` of its port and its first protocol, with 'http' when the item has none.
- Statuses other than `working`, `failed` and NULL cannot be stored: `Status` has three values.
- Models.StrRoundTrip, Models.UrlRoundTrip, Models.FormatUrlRoundTrip, ProxyRecord.UrlRoundTrip and StoreProperties.MarkFailedByUrl: the round trip is stated only for an ip (and, for a URL, a protocol) without ':'. An IPv6 address or an odd protocol would split elsewhere.
- Checker.ProxyChecker.ProbeEach and Checker.ProxyChecker.CheckRandomProxies: the verdict is stated for proxies that have no latency yet. That is always the case for the fresh objects `get_unchecked_proxies` returns.
