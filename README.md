# 4chantool: day-scoped JSON cache and board summaries, in Dafny

4chantool is a command-line reader for the read-only 4chan JSON API. It does
four things:

- It fetches documents such as `boards.json`, `{board}/catalog.json` and
  `{board}/thread/{no}.json` from `https://a.4cdn.org/`.
- It keeps each response in a disk cache (`FileCache`). Thread documents
  are cached under their own path. Every other document gets the current
  date spliced in before `.json`, so it is fetched again once per calendar
  day.
- For the board listing, it builds a column of feature flags
  (`boardflags`) and a column of numeric limits (`boardquota`).
- It counts how often each field name occurs across the posts it renders
  (`g_stats`).

This project models those pieces and proves their properties:

- `text.dfy` (module `Text`) holds the Python string operations the client
  calls: `str.find`, `str.replace`, `str.rjust`, `str.join` and `str(int)`.
  It also holds `"%0Nd"`, which `str(date)` uses inside `datetime`.
  `LStripSpaces`, `Split`, `ParseInt` and `DigitsValue` are not called by
  the client. They are reference inverses, used to state that what the
  client writes can be read back.
- `dates.dfy` (module `Dates`) holds calendar dates and their
  `str(date)` rendering, `YYYY-MM-DD`. This is the extended format of
  section 4.1.2.2 of ISO 8601:2004. `Date` admits only the dates
  `datetime.date` can hold: years 1 to 9999 and real calendar days.
- `cache_key.dfy` (module `CacheKey`) holds `FileCache.makepath`, as a pure
  function of the cache directory, the logical path and the date. It also
  holds `posixpath.join`.
- `file_cache.dfy` (module `Cache`) holds class `FileCache`. The directory
  tree is a `map` field from file path to bytes, updated in place by
  `Store`.
- `four_chan.dfy` (module `Client`) holds class `FourChan` and its
  cache-or-fetch method `GetJson`. Each cache operation reads the clock
  again, so `GetJson` takes two dates: the one read by the existence check
  and the one read when the file is then read or written. Two more things
  are parameters:
  - the network, a function from URL to response body or transport error;
  - JSON decoding, a function from bytes to a document, or `None` when
    `json.loads` would raise.

  A ghost log records every URL requested.
- `board_summary.dfy` (module `BoardSummary`) holds `boardflags` and
  `boardquota`. Each is a method with the source's loop, proved against a
  specification function. The two tables they read are passed in, because
  they are locals of `list_boards`.
- `post_stats.dfy` (module `PostStats`) holds the `g_stats` tally. It is a
  class with a counter map that `Tally` updates in place.
- `wrappers.dfy` holds `Option`.

Four behaviours of the code are kept as written:

- `str.replace` rewrites every `.json` in a path, not only the extension
  (`CacheKey.EveryJsonRewritten`).
- `getjson` stores a response before decoding it, so a body that fails to
  decode stays cached (`Client.FourChan.SameDayTwice`). For a path with the
  date in its key, it is served, and fails, for the rest of that day. A
  thread document's key holds no date, so an undecodable thread body is
  served, and fails, on every later call on every day.
- A hit checked just before midnight reads the next day's file, which does
  not exist yet, so `open` raises (`Client.FourChan.MidnightHit`).
- `os.path.join` discards the cache directory when the logical path is
  absolute (`CacheKey.PathJoin`).

## Model

| member | source | states |
|---|---|---|
| Text.Find | 4chan.py:36 | `str.find`: the result is -1 exactly when the pattern occurs nowhere; otherwise it is an occurrence with none before it |
| Text.ReplaceAll | 4chan.py:38 | `str.replace`: every non-overlapping occurrence, scanning from the left, is replaced; `Text.ReplaceAllAbsent` and `Text.ReplaceAllStep` state it |
| Text.ReplaceAllAbsent | 4chan.py:38 | `str.replace` leaves a string without the pattern unchanged |
| Text.ReplaceAllDistinguishes | 4chan.py:38 | replacing an occurring pattern with two different texts of equal length gives different strings |
| Text.ReplaceAllSuffix | 4chan.py:38 | when the only occurrence of the pattern is the final one, the replacement rewrites exactly that suffix |
| Text.ReplaceAllStep | 4chan.py:38 | with the first occurrence of the pattern after a prefix, replacing keeps the prefix, rewrites that occurrence and carries on replacing in the rest |
| Text.FindFirst | 4chan.py:36 | an occurrence is the one `find` reports when the pattern's first character does not appear earlier |
| Text.ZeroPad | 4chan.py:38 | `"%0Nd"` of a number below 10^N yields exactly N decimal digits |
| Text.ZeroPadRoundTrip | 4chan.py:38 | reading the zero-padded digits back gives the number, when it fits the width |
| Text.IntToStr | 4chan.py:132 | `str(q)` is non-empty, does not start with a space, and starts with '-' exactly for negative q |
| Text.IntToStrRoundTrip | 4chan.py:132 | `int(str(q)) == q` |
| Text.RJust | 4chan.py:132 | `str.rjust(w)`; its contract is stated by `Text.RJustShape` |
| Text.RJustShape | 4chan.py:132 | `rjust(w)` has length max(w, len), ends with the original string, and is spaces before it |
| Text.LStripRJust | 4chan.py:132 | stripping leading spaces undoes `rjust` on a string not starting with a space |
| Text.Join | 4chan.py:127 | `sep.join(parts)`; `Text.SplitJoin` states that it can be split back |
| Text.Concat | 4chan.py:133 | `"".join(parts)`; `BoardSummary.QuotaLength` states its length on the quota columns |
| Text.SplitJoin | 4chan.py:127 | splitting a `sep.join` on the separator returns the parts, or `[""]` for no parts, when no part holds the separator |
| Dates.IsoDate | 4chan.py:38 | `str(date)` is 10 characters with '-' at positions 4 and 7 |
| Dates.IsoDateInjective | 4chan.py:37-38 | two different dates render to different strings |
| Dates.IsoDateExample | 4chan.py:38 | 2024-01-01 and 1999-12-31 render as written |
| CacheKey.PathJoin | 4chan.py:39 | `os.path.join`: the result always ends with the second path, and starts with the directory when the second path is relative |
| CacheKey.IsThreadPath | 4chan.py:36 | `path.find("/thread/") != -1` holds exactly when the marker occurs somewhere in the path |
| CacheKey.DayScoped | 4chan.py:38 | the date rewrite leaves a path without `.json` unchanged |
| CacheKey.MakePath | 4chan.py:35-39 | `makepath`: a thread path, or a path without `.json`, is joined to the cache directory unchanged |
| CacheKey.DaySuffix | 4chan.py:38 | the text each `.json` becomes, `-YYYY-MM-DD.json`, is 16 characters |
| CacheKey.ThreadPathStable | 4chan.py:35-39 | a path containing `/thread/` is joined to the cache directory unchanged, whatever the date |
| CacheKey.DayScopedKeepsAbsolute | 4chan.py:38-39 | the date rewrite does not change whether a path is absolute |
| CacheKey.PathJoinInjective | 4chan.py:39 | joining to one directory keeps different paths of the same kind (relative or absolute) apart |
| CacheKey.PathJoinRelative | 4chan.py:39 | a relative path is joined as `dir + "/" + path` when `dir` has no trailing slash |
| CacheKey.DayRollover | 4chan.py:35-39 | a non-thread path containing `.json` maps to a different cache file on every pair of different dates |
| CacheKey.SingleExtension | 4chan.py:36-39 | a non-thread path whose only `.json` is its extension gets `-YYYY-MM-DD` spliced in before it |
| CacheKey.BoardDocumentKey | 4chan.py:35-39 | `{board}/{name}.json` is cached as `{board}/{name}-YYYY-MM-DD.json` under the cache directory |
| CacheKey.NewYear2024Suffix | 4chan.py:38 | on 2024-01-01, `.json` becomes `-2024-01-01.json` |
| CacheKey.CatalogKeyExample | 4chan.py:35-39 | `a/catalog.json` on 2024-01-01 is cached as `<cachedir>/a/catalog-2024-01-01.json` |
| CacheKey.ThreadKeyExample | 4chan.py:35-39 | `a/thread/555.json` under `a.4cdn.org` is `a.4cdn.org/a/thread/555.json` on every date |
| CacheKey.EveryJsonRewritten | 4chan.py:38 | for every path `a + ".json" + b` whose first `.json` follows `a`, the rewrite gives `a`, the day's suffix, then the rewrite of `b`, so every `.json` is rewritten and not only the last |
| CacheKey.NonThreadKey | 4chan.py:35-39 | the same on the whole cache key of every non-thread path |
| CacheKey.TwoExtensionsExample | 4chan.py:38 | both `.json` of `x.json.json` become the day's suffix |
| Cache.FileCache.constructor | 4chan.py:22-23 | the cache is over the given directory and holds what is on disk |
| Cache.FileCache.Exists | 4chan.py:24-25 | true exactly when the file at the derived path is present |
| Cache.FileCache.Retrieve | 4chan.py:26-28 | the bytes of the file at the derived path, or the error when there is none |
| Cache.FileCache.Store | 4chan.py:29-33 | the file at the derived path now holds the data, nothing else changes, and the byte count is returned |
| Cache.FileCache.StoreThenRetrieve | 4chan.py:24-33 | after a store, the path exists and reads back exactly the stored bytes on the same day, and every other file is untouched |
| Client.Decoded | 4chan.py:88 | decoding gives the document, or the decode error exactly when `json.loads` fails; it never gives None or the read error |
| Client.FourChan.constructor | 4chan.py:53-55 | the client's cache is a new cache over the cache directory; nothing has been requested |
| Client.FourChan.GetJson | 4chan.py:76-88 | a hit on the date of the check requests nothing, changes nothing, and decodes the file for the date of the read, or fails as `open` does when that file is missing; a miss requests `https://a.4cdn.org/` + path once, then either returns None with the cache unchanged (transport error) or caches the body under the date of the write and decodes it |
| Client.FourChan.SameDayHit | 4chan.py:76-88 | within one day, a hit decodes exactly the cached bytes, requests nothing and changes nothing |
| Client.FourChan.MidnightHit | 4chan.py:24-37 | a hit checked on one day whose file for the next day does not exist fails as `open` does, requesting nothing |
| Client.FourChan.SameDayTwice | 4chan.py:76-88 | once a call has produced a document (or a decode error), a second call for that path on the same day gives the same answer without a request; two failed fetches request twice |
| BoardSummary.Truthy | 4chan.py:125 | `b.get(k)` is truthy: the key is present and not 0 |
| BoardSummary.KeptNamesInTableOrder | 4chan.py:122-127 | the kept names are the short names of exactly the truthy switches, in table order |
| BoardSummary.BoardFlags | 4chan.py:122-127 | the result is the kept short names joined with "," |
| BoardSummary.BoardFlagsSplit | 4chan.py:93-127 | the flags column splits back into exactly the kept names, or `[""]` when none is on |
| BoardSummary.BoardQuota | 4chan.py:128-133 | the result is the right-justified column of every table entry, concatenated in table order |
| BoardSummary.QuotaValue | 4chan.py:131 | `b.get(k, 0)`; `BoardSummary.QuotaColumnsReadBack` states the 0 default |
| BoardSummary.Column | 4chan.py:131-132 | `str(b.get(k, 0)).rjust(w)` for one table entry; `BoardSummary.ColumnReadsBack` states its shape |
| BoardSummary.ColumnReadsBack | 4chan.py:131-132 | one column has length max(w, len(str(q))), ends with str(q), is spaces before it, and reads back as q |
| BoardSummary.QuotaColumnAt | 4chan.py:128-133 | there is one column per table entry, built from that entry alone |
| BoardSummary.QuotaColumnsReadBack | 4chan.py:128-133 | column i is str(b.get(k, 0)) left-padded to max(w, len), reads back as that value, and reads 0 for a missing key |
| BoardSummary.QuotaLength | 4chan.py:128-133 | when every value fits its width, the quota line is as long as the sum of the widths |
| BoardSummary.QuotaLineWidth | 4chan.py:109-133 | with the `list_boards` table, the quota line is 52 characters when every value fits |
| PostStats.Bumped | 4chan.py:189-190 | the counter map after `g_stats[k] += 1` for each key in turn; `PostStats.BumpedCounts` states its effect |
| PostStats.BumpedCounts | 4chan.py:188-190 | each counter grows by the number of times its key is tallied, and the tracked keys gain exactly the tallied ones |
| PostStats.DistinctKeysCountedOnce | 4chan.py:188-190 | for one post's distinct keys, each counter of a key goes up by one and every other counter is unchanged |
| PostStats.TallyOrderIrrelevant | 4chan.py:188-190 | the counters depend only on how often each key is tallied, not on the order |
| PostStats.BumpedAppend | 4chan.py:186-190 | tallying two posts in turn equals tallying their keys together |
| PostStats.Stats.constructor | 4chan.py:14-15 | the counters start empty |
| PostStats.Stats.Tally | 4chan.py:188-190 | the counter map becomes the old one with every key of the post bumped, in order |

## Left out

- The wall-clock date read inside `makepath` (4chan.py:37) is a parameter of every cache operation instead.
- `httpreq`, the cookie jar and the opener setup (4chan.py:56-74) are network I/O. The model's fetch is a function from URL to a body or a transport error. Timeouts and the debug handler are not modelled.
- `json.loads` (4chan.py:88) is a foreign library. Decoding is a function parameter. The exception it raises on malformed input, which propagates uncaught, is the result `Malformed`.
- Client.FourChan.GetJson does not model the error message printed on a failed fetch (4chan.py:81). It takes two clock readings, not three: on a miss, the exists and store calls each read the clock, and the retrieve call is not made.
- Cache.FileCache.Retrieve returns `None` where `open` would raise `OSError` for a missing file. `getjson` only calls it after `exists` succeeded.
- Cache.FileCache.Store does not model `os.makedirs` or write failures (4chan.py:31-33). Directories are implicit in the map, and a write always succeeds in full.
- Cache.FileCache.Exists does not model a directory at the derived path, which `os.path.exists` would also report.
- All `print` output is presentation and is left out. This covers the layouts of `list_boards`, `print_post`, `list_catalog`, `list_thread`, `list_threads` and `list_archive` (4chan.py:135-233). Two things there are also not modelled: the early return of each `list_*` on a falsy `getjson` result, and the one `list_thread` call per thread number.
- The recursion of `print_post` into `last_replies` (4chan.py:181-186) is not modelled. `PostStats.BumpedAppend` covers what it does to the counters: each post rendered adds its own keys.
- `datetime.datetime.fromtimestamp` (4chan.py:144) depends on the local time zone and is presentation only.
- `main` and argparse (4chan.py:235-277) are command-line plumbing. The only constant they contribute is the default cache directory `a.4cdn.org` (4chan.py:242), which `CacheKey.ThreadKeyExample` uses.
- A board is modelled as a map from field name to integer. The API gives the feature switches as 0/1 and the limits as integers. Non-integer values, such as a string whose truthiness depends on being empty, are not modelled.
- Dict iteration order in `boardflags` is the insertion order of the table literal, as in Python 3.7 and later. The table is a sequence in that order.
