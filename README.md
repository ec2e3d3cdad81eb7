# Meting CLI downloader — verified model of its decision logic

The CLI (`cli.mjs`) downloads tracks from several music catalogs through the
Meting library, and captures login cookies by polling a Playwright browser.
Between those foreign calls it makes a number of self-contained decisions:

- which browser cookies belong to a platform;
- when a login counts as complete;
- how long the capture loop polls;
- how the captured cookies are rendered;
- which tracks a keyword or an album contributes, and which file each goes to;
- when a download is skipped;
- how a batch of downloads survives one failure;
- which album ids are fetched, and in what order;
- which `--platform` and `--format` values are accepted.

This project models those decisions in Dafny and proves what the program
promises about them. The foreign parts are passed in as values:

- the cookie jar is a sequence of snapshots;
- `Date.now()` is a sequence of clock readings;
- the URL resolver, `fetch` and `writeFile` are folded into a per-track `SongEnv`;
- the output directory is the set of file names it holds;
- an album search is a parsed payload, or a function from query to id.

Modules (one per concern, all in the top directory):

| file | module | what it holds |
|---|---|---|
| wrappers.dfy | `Wrappers` | `Option`, `Result`, JavaScript truthiness of an optional string |
| seqs.dfy | `Seqs` | `Array.prototype.filter` and `slice(0, end)` |
| text.dfy | `Text` | ASCII `toLowerCase`, `endsWith`, `includes`, `trim`, `join` |
| platforms.dfy | `Platforms` | the platform tables and the `--platform`/`--format` validators |
| cookies.dfy | `CookieCapture` | cookie filter, `hasRequired`, the `waitForCookie` loop, `formatCookies` |
| tracks.dfy | `Tracks` | `isSoloMatch`, `sanitize`, the per-keyword and per-album cut |
| paths.dfy | `Paths` | the URL-to-extension rule (`split("?")`, POSIX `path.extname`) |
| download.dfy | `Download` | the decisions of `downloadSingle` and the `downloadSongs` loop |
| albums.dfy | `Albums` | `normalizeAlbumCandidates`, the first-candidate choice, album id ordering |

`waitForCookie`, `downloadSongs` and the id collection of `runAlbumMode` are
loops in the source. Each is a `method` with a loop, proved equal to a
specification function (`Poll`, `RunBatch`, `QueryIds`); `Poll` is the
recursive `FirstCapture` applied to the per-poll captures. The loop
of `downloadSongs` is written once over any per-track attempt (`RunSongs`)
and `DownloadSongs` runs it with `downloadSingle`. The
properties the source promises are lemmas about those functions. Everything
else in the source is an expression, and is a function here.

Behaviour worth noting:

- The capture loop checks the deadline *before* each poll, not after it. So no
  poll happens once the deadline has passed. A timeout of 0 or less fails
  without polling at all.
- A failed `writeFile` is an ordinary per-track failure.

## Model

| member | source | states |
|---|---|---|
| Seqs.Filter | cli.mjs:194-196 | `filter` keeps exactly the input elements that pass the test, and never more than the input holds |
| Seqs.FilterConcat | cli.mjs:194-196 | filtering distributes over concatenation, so kept elements keep their input order |
| Seqs.FilterFirst | cli.mjs:436-443 | the first element of a filtered array is the first input element that passes the test |
| Seqs.TakeLimitSpec | cli.mjs:297-336 | `slice(0, limit)`, which cuts both a keyword's songs (lines 297-298) and an album's tracks (line 336), is a prefix: exactly `limit` items when `0 <= limit <= n`, all of them when `limit > n`, and `n + limit` (at least 0) for a negative limit |
| Text.ContainsIff | cli.mjs:453 | the `includes` scan succeeds exactly when the needle occurs at some index of the text |
| Text.TrimSpec | cli.mjs:458 | `trim` returns a slice of its input that neither starts nor ends with white space |
| Text.TrimIdempotent | cli.mjs:458 | trimming a trimmed string changes nothing |
| Platforms.ChooseSpec | cli.mjs:473-503 | a validator accepts exactly when the lower-cased argument is in its set; case never matters; an accepted value is lower-case and is accepted again unchanged |
| Platforms.EnsurePlatform | cli.mjs:473-481 | `--platform` succeeds iff its lower-cased value is one of the five supported platforms, and returns that value; otherwise it fails with the "Unsupported platform" message |
| Platforms.EnsureCookiePlatformAsWritten | cli.mjs:483-491 | as written, the lookup also accepts the inherited `Object.prototype` names, but only once lower-cased |
| Platforms.OnlyLowerCasePrototypeNamesPass | cli.mjs:483-491 | as written, exactly the table keys, `constructor` and `__proto__` get through, because the argument is lower-cased first; `--platform hasOwnProperty` and the other mixed-case inherited names are rejected |
| Platforms.PrototypeNamesAcceptedAsWritten | cli.mjs:483-491 | as written, `constructor` and `__proto__` are accepted, though neither has a login configuration |
| Platforms.EnsureCookiePlatform | cli.mjs:483-491 | corrected: accepts iff the lower-cased value is a key of the cookie-platform table, and returns it |
| Platforms.CookiePlatformsAreSupported | cli.mjs:15-48 | the corrected cookie-platform check agrees with `ensurePlatform` on every input |
| Platforms.ValidateCookieFormat | cli.mjs:493-503 | `--format` succeeds iff its lower-cased value is `header` or `json`, and returns it; otherwise it fails with the format message |
| CookieCapture.FilterByDomainSpec | cli.mjs:190-196 | a cookie is kept iff its lower-cased domain (missing reads as `""`) ends with the lower-cased suffix; kept cookies stay in jar order |
| CookieCapture.HasRequiredIff | cli.mjs:210-215 | `hasRequired` holds iff every required name, lower-cased, is among the lower-cased non-empty cookie names; it always holds for no required names |
| CookieCapture.HasRequiredIgnoresCase | cli.mjs:210-215 | lower-casing the required names does not change the answer |
| CookieCapture.Capture | cli.mjs:193-201 | one iteration captures exactly when the filtered jar is accepted, and what it captures is non-empty, holds every required name and is drawn from the jar it read, all on the platform's domain |
| CookieCapture.Poll | cli.mjs:192-207 | the loop returns only an accepted list: non-empty, holding every required name, and all on the platform's domain; otherwise it returns the timeout error |
| CookieCapture.PollCapturesFirstAccepted | cli.mjs:192-201 | if the k-th poll is the first accepted one and comes before the deadline, the loop returns exactly that poll's filtered jar |
| CookieCapture.PollTimesOut | cli.mjs:192-207 | if the clock passes the deadline before any poll is accepted, the loop fails with the timeout error |
| CookieCapture.WaitForCookie | cli.mjs:188-208 | the polling method computes the outcome `Poll` specifies, so a success is non-empty, complete and on the platform's domain |
| CookieCapture.FormatCookies | cli.mjs:217-225 | fails with "no cookies" iff the list is empty; the `json` form carries the records unchanged; any other format gives the header form |
| CookieCapture.HeaderRoundTrip | cli.mjs:224 | splitting the header at `"; "` gives back the `name=value` pieces one per cookie in input order, so n cookies give n - 1 separators (when no name or value holds `;`) |
| Tracks.IsSoloMatchSpec | cli.mjs:449-455 | a track matches iff it has exactly one credited artist whose name contains the query with case ignored; a missing or multi-artist list never matches; the query's case does not matter |
| Tracks.Scrub | cli.mjs:458 | the replacement keeps the length and turns exactly the characters `< > : " / \ | ? *` and U+0000–U+001F into `_`, leaving every other character in place |
| Tracks.Sanitize | cli.mjs:457-459 | the file name is the trimmed scrubbed text, or `"track"` exactly when that is empty; so it is never empty, contains no forbidden character, and is no longer than the input unless it is `"track"` |
| Tracks.SanitizeKeepsCleanNames | cli.mjs:457-459 | a non-empty name without forbidden characters and without surrounding white space is kept unchanged |
| Tracks.SanitizeIdempotent | cli.mjs:457-459 | sanitizing a sanitized name changes nothing |
| Tracks.KeywordSelectionSpec | cli.mjs:290-298 | with a non-empty `--artist`, the selection is `slice(0, limit)` of the solo matches of the trimmed name, so a prefix of them all matching; with a missing or empty one it is `slice(0, limit)` of the songs; it never holds more than a non-negative limit |
| Paths.BeforeQuery | cli.mjs:398 | `url.split("?")[0]` is the longest prefix of the URL without `?` |
| Paths.Extname | cli.mjs:398 | an extension is empty or a `.` followed by text holding no `.` and no `/` |
| Paths.AudioExtension | cli.mjs:398 | the chosen extension starts with `.` and holds no further `.`, no `/` and no `?` |
| Paths.ExtensionOfNamedFile | cli.mjs:398 | a URL whose path ends in `name.ext`, with or without a query, gets `.ext` |
| Paths.ExtensionDefaultsToMp3 | cli.mjs:398 | a URL whose last path segment has no `.` gets `.mp3` |
| Download.TargetName | cli.mjs:398-400 | the target file name (sanitized name, then extension) holds no `/` |
| Download.DownloadSingle | cli.mjs:388-412 | no URL gives "Audio URL not available", then no name gives the name error; every success names the target built from the name and URL; a skip happens only with overwrite off and an existing target, and leaves the directory unchanged; when not skipped, a rejected fetch, a non-2xx status and a failed write give their errors in that order, and otherwise the target is saved; a save needs a 2xx response and a successful write, and adds exactly the target; every failure leaves the directory unchanged |
| Download.SkipDecidedBeforeFetch | cli.mjs:402-405 | a track is skipped iff it has a URL and a name, overwrite is off and the target exists; a skipped attempt is the same whatever the fetch and the write would do |
| Download.RunBatch | cli.mjs:372-386 | a batch gives one report per track |
| Download.RunSongs | cli.mjs:372-386 | the loop, given a per-track attempt that never deletes a file, computes the batch `RunBatch` specifies: one report per track, and the directory only grows |
| Download.DownloadSongs | cli.mjs:372-386 | with `downloadSingle` as the attempt, the loop computes the batch `RunBatch` specifies: one report per track, and the directory only grows |
| Download.RunBatchConcat | cli.mjs:373-385 | running two track lists one after the other gives the same reports and directory as running their concatenation |
| Download.RunBatchAt | cli.mjs:373-385 | the i-th report is the attempt of the i-th track against the directory the first i tracks left, whether or not they failed |
| Download.RunBatchIsolates | cli.mjs:373-385 | a track whose attempt leaves the directory as it was changes nothing for the others: every other report and the final directory are those of the batch without it |
| Download.FailureIsIsolated | cli.mjs:377-382 | a failing download changes nothing for the others: every other report and the final directory are those of the batch without it |
| Albums.NormalizeAlbumCandidatesSpec | cli.mjs:421-447 | QQ Music: a candidate is kept iff its album gives an id (`mid`, then `albumMid`) and a name (`name`, then `albumName`); the first candidate comes from the first such album, and there is none when no album qualifies; NetEase: one candidate per album, in order; other platforms and unparsable answers: none |
| Albums.TencentOrder | cli.mjs:436-443 | the QQ Music filter's first candidate is that of the first album with an id and a name, and there is no candidate when no album has both |
| Albums.ResolveAlbumByQuery | cli.mjs:355-369 | the first candidate wins; no candidate gives no id; on QQ Music a chosen id is never empty and is the `mid` (else `albumMid`) of the first album with an id and a name |
| Albums.QueryIdsSpec | cli.mjs:312-317 | the resolved ids keep query order (one query gives its truthy id or nothing), are never empty, each comes from some query, and every query resolving to a non-empty id contributes it |
| Albums.QueryIdsConcat | cli.mjs:312-317 | resolving two query lists in turn gives the ids of their concatenation |
| Albums.QueryIdsOrigin | cli.mjs:312-317 | at most one id per query; each id is non-empty and comes from a query; every query with a non-empty id contributes it |
| Albums.CollectAlbumIds | cli.mjs:302-319 | with every album search answering, fails iff there are neither `--album-id` values nor queries; otherwise returns the truthy ids resolved from the queries, in order, then the explicit ids, in order |

## Left out

- The browser is not modelled: launch, navigation, and the page and context `close` listeners raced against the poll loop by `Promise.race`. This is concurrency and foreign event wiring, so there is no cancellation outcome.
- Meting calls, `fetch`, `arrayBuffer`, `writeFile`, `mkdir` and `readFile` are not modelled. They are network and file I/O. Their answers are parameters: `SongEnv`, `SearchPayload`, and the `resolve` function.
- `JSON.parse` (`safeParseJSON`, `parseSongList`) is not modelled. A payload that does not parse is `None`, and a parsed one is a structured value.
- `JSON.stringify` is not modelled. The `json` form is the record list handed to it.
- `sleep` and the inter-request delays are not modelled.
- `Date.now()` is a sequence of readings.
- WaitForCookie: requires that the supplied clock readings end at or past the deadline. A clock that never reaches it would make the source poll forever, and the model does not cover that case.
- The outer keyword loop of `runKeywordMode` and the album loop of `runAlbumMode` are not modelled as methods. They only sequence catalog calls, delays and `downloadSongs`. Their decisions are modelled: per-batch selection (`KeywordSelection`, and `TakeLimit` for an album), the empty-input error and id order (`CollectAlbumIds`), and each batch (`DownloadSongs`).
- Commander wiring, `parseInteger`, `buildDownloadContext`, `readCookieFile`, `runCookieFlow`'s output writing, chalk logging and `fail`/`process.exitCode` are not modelled. They are argument parsing, I/O and presentation.
- `toLowerCase` is ASCII-only. The full Unicode mapping is left out, so for example a Kelvin sign folding to `k` is not modelled.
- `trim` uses the ECMAScript white-space and line-terminator set, written out.
- `path.extname` is the POSIX version for a string path: trailing slashes, a dot that opens the base name, and the base name `..`. The Windows variant is left out.
- Validators take a string argument. Commander always passes one, so `(x || "")` for `undefined` is not modelled.
- Track and album ids are strings. In the source a numeric id on a nameless track would make `sanitize` throw, and a numeric album id of `0` is falsy.
- Cookie names are optional strings, and values are strings. A missing name prints as `undefined` in the header form, as a template literal does.
- TargetName: a track whose name sanitizes to `.` and whose URL path ends in a bare `.` gets the target `..`, which `path.join` resolves to the parent of the output directory; the model treats it as an ordinary file name in the directory set, whereas the source finds it existing (and skips it) or fails to write over it.
- DownloadSingle: a rejection of `meting.url` and a failure of `res.arrayBuffer()` are not outcomes of the model. Each is a per-track failure in the source, caught by the batch loop like the others. `SongEnv` has no way to express them.
- CollectAlbumIds: a rejected album search is not modelled, because `resolve` is total. In the source, nothing in the query loop of `runAlbumMode` catches a failed `searcher.search`, so it aborts album mode. The model returns `Ok` whenever it gets an id or a query.
- A failed `writeFile` leaves the directory unchanged in the model. A partly written file is not modelled.

## Findings

| source | as written | input that shows it | evidently intended | confidence | as-written member | corrected member |
|---|---|---|---|---|---|---|
| cli.mjs:485 | `COOKIE_PLATFORMS[lower]` reads an object literal, so the inherited `Object.prototype` properties are truthy too; the all-lower-case ones get through validation | `--platform constructor` (also `__proto__`): validation passes, and `runCookieFlow` then reads `config.url` as `undefined` | accept only the five platforms the table defines, as `ensurePlatform` does | high; not executed | Platforms.PrototypeNamesAcceptedAsWritten | Platforms.CookiePlatformsAreSupported |
