# deguvon-server `api/utils.py` in Dafny

deguvon-server keeps a catalog of animes and their episodes, scraped from
AnimeFLV, in a Django database. This project models the logic of
`api/utils.py` that keeps that catalog in step with the site:

- **`verify_recents`** resolves the feed of recent episode URLs. Each
  link is handled one of four ways:
  - a stored episode is answered from the store;
  - an episode whose anime the site cannot name is dropped;
  - an episode of a stored anime refreshes that anime;
  - an episode of a new anime creates it. The new anime's related animes are
    then refreshed or created one hop deep, inside a transaction.
- **`create_directory`** creates every listed anime that was not saved when
  it started.
- **`load_directory`** restores a directory file entry by entry with
  create-or-update. It collects one error line per failing entry.
- **`decode_unicode`** replaces the escapes matched by `ESCAPE_SEQUENCE_RE`
  with the characters they denote.

How the database and the scraper are modelled:

- **The database** is the class `Catalog.Db`, changed in place. Its
  transitions are the pure functions `Catalog.Create`, `Catalog.Update` and
  `Catalog.CreateOrUpdate` over the value `Catalog.Store`. These functions
  state what the model layer (`Anime.create`, `anime.update`,
  `Anime.create_or_update`) is assumed to do: the model layer itself is not
  part of this model.
- **The scraper** is the class `Scraper.Gateway`. It answers from a fixed
  `Scraper.Source` and keeps a ghost log of every request, so contracts can
  say which pages were fetched and in what order.

Each loop of the source is a method. Every method is proved against a pure
function of the same shape, and the lemmas state the promised properties
about those functions:

| method | proved against |
|---|---|
| `Recents.VerifyRecents` | `Recents.Recents` |
| `Directory.CreateDirectory` | `Directory.Directory` |
| `Directory.RestoreEntries` | `Directory.Restore` |

Files:

| file | contents |
|---|---|
| `wrappers.dfy` | `Option` and `Result` |
| `catalog.dfy` | the tables, their integrity (`Valid`), the assumed model-layer operations, `Db` |
| `scraper.dfy` | the site, `get_anime`, `get_animeUrl_by_ep`, `get_all_animes`, `Gateway` |
| `fetch.dfy` | `anime.update(get_anime(url))` and `Anime.create(get_anime(url))`, the steps both loops are built from |
| `recents.dfy` | `verify_recents` and `format_data` |
| `directory.dfy` | `create_directory` and the batch part of `load_directory` |
| `unescape.dfy` | `ESCAPE_SEQUENCE_RE` and `decode_unicode` |
| `json_text.dfy` | `decode_unicode` on the `json.dumps` text `cache_directory_soft` gives it, and the corrected decoder (see Findings) |

## Model

| member | source | states |
|---|---|---|
| Scraper.GetAnime | api/utils.py:35 | `get_anime(url)` yields the page exactly when the site serves it, and otherwise raises the not-found error naming that URL |
| Scraper.OwnerOf | api/utils.py:59-61 | `get_animeUrl_by_ep` names an owner exactly when the site knows the episode |
| Catalog.Insert | api/utils.py:64-65 | adding a page's episodes touches neither the anime table nor its id sequence |
| Catalog.Create | api/utils.py:36 | `Anime.create` that succeeds stores the anime under its URL |
| Catalog.Update | api/utils.py:64 | `anime.update` leaves the anime stored |
| Catalog.CreateOrUpdate | api/utils.py:147 | `Anime.create_or_update` that succeeds stores the anime under its URL |
| Catalog.ClashIsOverlap | api/utils.py:36 | the uniqueness check of `Anime.create` fires exactly when a listed episode URL is already a stored key |
| Catalog.InsertFacts | api/utils.py:36 | adding a page's episodes stores every listed URL, keeps the old rows, and gives each new row the owner and a fresh id |
| Catalog.InsertKeepsValid | api/utils.py:36 | adding episodes under a stored owner keeps the store valid and loses nothing |
| Catalog.CreateFacts | api/utils.py:36 | `Anime.create` fails exactly on a duplicate anime or episode URL, as an integrity error and with no write; on success it adds one anime with a new aid that shows the page, adds its episodes and changes no stored row |
| Catalog.CreateKeepsValid | api/utils.py:36 | `Anime.create` keeps foreign keys resolvable and local ids fresh and unique |
| Catalog.UpdateFacts | api/utils.py:64 | `anime.update` keeps the anime's aid and the set of animes, shows the page, stores all the page's episodes (the new ones under this anime) and touches no other anime |
| Catalog.UpdateKeepsValid | api/utils.py:64 | `anime.update` keeps the store valid |
| Catalog.CreateOrUpdateFacts | api/utils.py:147 | `Anime.create_or_update` fails only when it has to create and the episodes clash; otherwise the anime shows the record and the store stays valid |
| Catalog.CreateOrUpdateKeys | api/utils.py:147 | `create_or_update` raises only for an unstored URL, and otherwise adds at most that URL |
| Catalog.Db.CreateAnime | api/utils.py:36 | the database becomes `Create` of its old state, or is left unchanged with the error returned |
| Catalog.Db.UpdateAnime | api/utils.py:64 | the database becomes `Update` of its old state |
| Catalog.Db.CreateOrUpdateAnime | api/utils.py:147 | the database becomes `CreateOrUpdate` of its old state, or is left unchanged with the error returned |
| Catalog.Db.Rollback | api/utils.py:71 | the database is back at its state on entry to `transaction.atomic()` |
| Scraper.Gateway.FetchAnime | api/utils.py:35 | answers `get_anime` and logs one page request |
| Scraper.Gateway.FetchOwner | api/utils.py:59 | answers `get_animeUrl_by_ep` and logs one owner lookup |
| Scraper.Gateway.FetchListing | api/utils.py:28 | answers `get_all_animes` and logs one listing request |
| Recents.FormatData | api/utils.py:43-52 | `format_data` drops `_state`, `id`, `anime_id` and `cover`, adds `anime` with the owner's name, cover and aid, and passes every other key through unchanged |
| Recents.ViewIsProjection | api/utils.py:43-52 | the view of a stored episode is exactly `{animeflv_url, number, anime: {name, cover, aid}}` |
| Recents.Fields | api/utils.py:48 | the instance dictionary holds the four keys `format_data` deletes and the episode's own URL |
| Recents.ViewOf | api/utils.py:47-52 | the view of a stored episode names that episode and has exactly the keys `animeflv_url`, `number` and `anime` |
| Recents.RefreshOne | api/utils.py:73-77 | one cascade step makes exactly one page request, writes nothing when it raises, and stores the URL when it succeeds |
| Recents.Refresh | api/utils.py:72-77 | the cascade makes at most one request per related URL, and exactly one each when it completes |
| Recents.Cascade | api/utils.py:71-77 | a failing cascade leaves the store as it was when the transaction began, and no more requests are made than there are related URLs |
| Recents.RefreshOwner | api/utils.py:62-66 | the known-owner path makes the one request for the owner's page, and a view it yields is the link's episode |
| Recents.CreateOwner | api/utils.py:67-77 | the new-owner path first requests the owner's page, and a view it yields is the link's episode |
| Recents.Resolve | api/utils.py:55-77 | a stored episode is answered with no request and no write; any other link first asks the site for the episode's owner |
| Recents.Recents | api/utils.py:53-78 | `verify_recents` returns no more views than links |
| Fetch.Pages | api/utils.py:72-77 | one page request per URL, in order |
| Fetch.FetchUpdate | api/utils.py:64 | `anime.update(get_anime(url))` makes exactly one page request, leaves the anime stored, and writes nothing when `get_anime` raises |
| Fetch.FetchCreate | api/utils.py:68 | `Anime.create(get_anime(url))` makes exactly one page request, stores the URL when it succeeds, and writes nothing when it raises |
| Fetch.FetchCreateWrites | api/utils.py:35-36 | one creation makes one request; on failure it writes nothing and the error is not-found or integrity; on success it adds exactly that URL; it changes no stored anime and keeps the store valid |
| Fetch.FetchCreateError | api/utils.py:35-36 | creating one listed anime fails only with the page's absence or an integrity error for that link |
| Fetch.FetchCreateKeys | api/utils.py:35-36 | one creation keeps every stored anime and adds at most the requested link |
| Fetch.FetchAndUpdate | api/utils.py:64 | runs `FetchUpdate` against the database and the gateway |
| Fetch.FetchAndCreate | api/utils.py:68 | runs `FetchCreate` against the database and the gateway |
| Recents.RefreshOneWrites | api/utils.py:73-77 | one cascade step makes one request; it refreshes the URL if stored and creates it otherwise; it writes nothing on failure, touches no other anime and keeps the store valid; on success the anime shows its page |
| Recents.RefreshRequests | api/utils.py:72-77 | the cascade requests only the related pages, in the order the relations are read, and all of them when it completes |
| Recents.RefreshWrites | api/utils.py:72-77 | the cascade adds or refreshes only related animes, never their relations (one hop), and keeps the store valid |
| Recents.RefreshCompletes | api/utils.py:72-77 | a completed cascade has stored exactly the related animes beyond the old ones |
| Recents.RefreshMirrors | api/utils.py:72-77 | after a completed cascade the site has served every related anime, and each shows its scraped page |
| Recents.FastPath | api/utils.py:55-57 | a stored episode yields its projection with no owner lookup, no page request and no write |
| Recents.Unresolvable | api/utils.py:59-61 | a link whose owner the site cannot name yields nothing and leaves the store as it was, after one lookup |
| Recents.KnownOwner | api/utils.py:62-66 | a stored owner is refreshed in place with one request: no anime is created, the aid is kept, no cascade runs. The view exists exactly when the refreshed page lists the episode; otherwise `EpisodeMissing` propagates. A missing page propagates with no write |
| Recents.NewOwnerOneHop | api/utils.py:67-77 | resolving through a new owner adds at most the owner and its direct relations, and changes no other anime |
| Recents.NewOwnerFailure | api/utils.py:67-77 | a failed new-owner resolution leaves the store unchanged, or with only the owner's creation: the cascade's writes are rolled back, the creation at line 68 is not |
| Recents.NewOwnerSuccess | api/utils.py:67-77 | a successful new-owner resolution emits the episode's view as created, before the cascade; it requests the owner's page and then each related page in the order the relations are read, and stores the owner and every related anime, each showing its page |
| Recents.RefreshOwnerKeepsValid | api/utils.py:62-66 | refreshing a known owner keeps the store valid and loses nothing |
| Recents.CreateOwnerKeepsValid | api/utils.py:67-77 | creating a new owner and its cascade keeps the store valid and loses nothing |
| Recents.ResolveKeepsValid | api/utils.py:55-77 | every path for one link keeps the store valid and deletes or renumbers nothing |
| Recents.ResolveShows | api/utils.py:57-70 | every view appended for a link is that link's episode |
| Recents.FollowsBound | api/utils.py:53-78 | an in-order selection of views has at most one per link |
| Recents.FeedOrder | api/utils.py:53-78 | the returned views follow the input links in order, at most one per link, so there are no more views than links |
| Recents.Cached | api/utils.py:55-57 | one view per stored link |
| Recents.CachedFeed | api/utils.py:53-57 | a feed of stored episodes is answered from the store alone: each link's view, in order, with no request and no write |
| Recents.RecentsKeepsValid | api/utils.py:53-78 | the whole feed keeps the store valid and deletes or renumbers nothing, even when it stops on an exception |
| Recents.RefreshStep | api/utils.py:73-77 | runs one cascade step against the database and the gateway |
| Recents.RefreshRelated | api/utils.py:71-77 | runs the cascade; on failure it rolls the database back to where the cascade began and returns the error |
| Recents.RefreshKnownOwner | api/utils.py:62-66 | runs the known-owner path |
| Recents.CreateNewOwner | api/utils.py:67-77 | runs the new-owner path, its view taken before the cascade |
| Recents.ResolveLink | api/utils.py:55-77 | runs one pass of the loop |
| Recents.VerifyRecents | api/utils.py:53-78 | the views returned, the database after, and the requests made are those of `Recents`; the first exception ends the call and earlier writes stay |
| Directory.Urls | api/utils.py:38-39 | the URLs the error lines name, in order |
| Directory.Failed | api/utils.py:37-39 | a failed attempt yields exactly one error line with its error and URL; a success yields none |
| Directory.SubsequenceBound | api/utils.py:145-149 | an in-order selection is no longer than its source and draws only from it |
| Directory.Unsaved | api/utils.py:31-34 | the links fetched are exactly the listed links missing from the snapshot, in listing order, each as many times as it is listed |
| Directory.Build | api/utils.py:32-39 | the loop reports at most one error per request and makes at most one request per listed link |
| Directory.Directory | api/utils.py:27-39 | `create_directory` first requests the listing, then at most one page per listed link, and reports fewer errors than requests |
| Directory.BuildRequests | api/utils.py:31-36 | `create_directory` requests exactly the pages of the links missing from the snapshot, each occurrence once, in listing order |
| Directory.BuildWrites | api/utils.py:31-39 | `create_directory` only adds listed animes, leaves every stored anime exactly as it was, and keeps the store valid |
| Directory.BuildCovers | api/utils.py:33-39 | a failing link does not stop the loop: every listed link missing from the snapshot ends up stored or reported |
| Directory.BuildReports | api/utils.py:33-39 | each error line names a link missing from the snapshot, in listing order, at most one per fetch |
| Directory.BuildKeys | api/utils.py:33-36 | the loop keeps every stored anime and adds only listed links |
| Directory.BuildReportsExactly | api/utils.py:33-39 | for a listing without repeats, a link missing from the snapshot gets an error line exactly when it is not stored after the loop |
| Directory.DirectoryReportsExactly | api/utils.py:27-39 | for a listing without repeats, `create_directory` reports a listed link that was not stored beforehand exactly when it is still not stored afterwards |
| Directory.BuildReportKinds | api/utils.py:33-39 | each error line is the page's absence or an integrity error, for the link it names |
| Directory.RepeatedLink | api/utils.py:31-36 | the snapshot is taken once: a new link listed twice is fetched twice, and the second creation is reported as an integrity error while the first stays stored |
| Directory.CreateDirectory | api/utils.py:27-39 | the error lines, the database after, and the requests made are those of `Directory` |
| Directory.Entries | api/utils.py:138-139 | a dict yields its values in order; anything else yields none |
| Directory.Collect | api/utils.py:139-142 | collecting keeps no more records than there are values |
| Directory.CollectFacts | api/utils.py:139-142 | collecting fails exactly when some value's parse raises, and then with that exception. Otherwise the records kept are exactly the parses of the values that parse: each is some value's parse, every value's parse is kept, falsy parses are skipped, and there are no more records than values |
| Directory.ParsedPositions | api/utils.py:139-141 | the positions of the values that parse to a record: increasing, each one a parse, and none missing |
| Directory.CollectKeepsOrder | api/utils.py:139-142 | the k-th record kept is the parse of the k-th value that parses, so the records keep file order and there is one per such value |
| Directory.CollectFrom | api/utils.py:139-142 | the same correspondence for the values from a given position on |
| Directory.RecordUrls | api/utils.py:148-149 | the records' URLs, in order |
| Directory.RestoreWrites | api/utils.py:143-147 | the save loop keeps the store valid, stores only the records' URLs, and changes no anime that no record names |
| Directory.Restore | api/utils.py:145-149 | the save loop collects no more error lines than there are records |
| Directory.RestoreOrder | api/utils.py:145-149 | the error lines name records in record order, at most one line per record |
| Directory.RestoreReports | api/utils.py:145-150 | for records naming distinct animes, an error line names a record exactly when that record's anime is not stored afterwards: failing records are reported and all others persist |
| Directory.RestoreKeys | api/utils.py:145-147 | the save loop keeps every stored anime and adds only records' URLs |
| Directory.RestoreFailures | api/utils.py:145-149 | only a record that has to be created can fail, and then with an integrity error |
| Directory.RestoreCovers | api/utils.py:144-149 | a failure does not stop later records: each record ends up stored or reported |
| Directory.RestoreStored | api/utils.py:144-149 | restoring records whose animes are all stored reports nothing and adds no anime |
| Directory.SaveErrors | api/utils.py:151-152 | one printed line per error, in order |
| Directory.LoadDirectory | api/utils.py:132-154 | a missing or unreadable file writes nothing and prints at most one line |
| Directory.LoadNothing | api/utils.py:133-138 | a missing file, or a file whose JSON is not an object, writes nothing and prints nothing |
| Directory.LoadOutcome | api/utils.py:132-154 | a load keeps the store valid. An exception while reading or collecting prints one line and writes nothing; every other printed line is an integrity error of one record |
| Directory.LoadReachesEvery | api/utils.py:139-152 | when no entry raises, every entry of the file that parses reaches `create_or_update`: its anime is stored afterwards, or an integrity error naming it is printed |
| Directory.CollectEntries | api/utils.py:139-142 | the loop returns what `Collect` returns |
| Directory.RestoreEntries | api/utils.py:143-149 | the error lines and the database after are those of `Restore` |
| Directory.SaveErrorLines | api/utils.py:151-152 | the lines printed are the save errors of the failed records, one each, in order |
| Directory.LoadDirectoryFile | api/utils.py:132-154 | the lines printed and the database after are those of `LoadDirectory` |
| Unescape.HexNumber | api/utils.py:95-97 | a run of n hex digits spells a number below 16^n |
| Unescape.OctalNumber | api/utils.py:98 | a run of n octal digits spells a number below 8^n |
| Unescape.OctalRun | api/utils.py:98 | `[0-7]{1,3}` takes as many octal digits as there are, up to three |
| Unescape.FindClose | api/utils.py:99 | `[^}]+\}` ends at the first `}` |
| Unescape.MatchLength | api/utils.py:94-101 | a match starts with a backslash and spans at least two characters |
| Unescape.DecodeEscape | api/utils.py:104-105 | a match the codec rejects raises with that match |
| Unescape.Decode | api/utils.py:104-107 | decoding never lengthens the text, and an exception names an escape |
| Unescape.DecodePlain | api/utils.py:107 | a text with no backslash comes back unchanged |
| Unescape.OtherEscapesKept | api/utils.py:100 | single-character escapes such as `\n` and `\"` are copied as they are |
| Unescape.BackslashNotPaired | api/utils.py:94-107 | a backslash does not escape the next backslash: in `\\u0041` the scan resumes at the second backslash |
| Unescape.DecodeUnicode4 | api/utils.py:96 | `\u` and four hex digits become the one code point they spell |
| Unescape.DecodeHex2 | api/utils.py:97 | `\x` and two hex digits become the one code point they spell |
| Unescape.DecodeUnicode8 | api/utils.py:95 | `\U` and eight hex digits become the code point they spell |
| Unescape.DecodeUnicode8Beyond | api/utils.py:95-105 | `\U` beyond U+10FFFF raises |
| Unescape.DecodeUnicode4Malformed | api/utils.py:96-105 | a `\u` match with a non-hex character raises |
| Unescape.HexEscapeMatch | api/utils.py:95-97 | each hex escape is one match replaced by its code point |
| Unescape.DecodeOctal | api/utils.py:98 | a backslash and greedy octal digits become one code point below 512 |
| Unescape.OctalRunOf | api/utils.py:98 | the octal run is greedy: it stops at three digits or at the first non-octal character |
| Unescape.SurrogatesStaySplit | api/utils.py:104-107 | each match is decoded on its own, so a surrogate-pair escape gives two code points |
| Unescape.HexChar | api/utils.py:95-97 | the hex digit of a value below 16 |
| Unescape.HexDigits | api/utils.py:95-97 | the n hex digits of a value spell that value |
| Unescape.Escaped | api/utils.py:95 | escaping writes ten characters per code point |
| Unescape.DecodeEscaped | api/utils.py:94-107 | decoding undoes `\U` escaping for every text |
| JsonText.ShortEscape | api/utils.py:129 | `json.dumps` writes a backslash and a letter exactly for the quote, the backslash and five control characters, and the letter is never `u` |
| JsonText.UEscape | api/utils.py:129 | a `\u` escape of `json.dumps` is six characters: a backslash, `u` and four hex digits |
| JsonText.AsciiChar | api/utils.py:129 | with `ensure_ascii`, a character becomes one to twelve printable ASCII characters: itself when it is printable ASCII other than the quote and the backslash, otherwise an escape starting with a backslash |
| JsonText.ReadableChar | api/utils.py:129 | without `ensure_ascii`, a character from U+0020 up other than the quote and the backslash is kept as it is, beyond ASCII too; any other becomes an escape of two to six characters starting with a backslash |
| JsonText.Ascii | api/utils.py:129 | with `ensure_ascii`, a text is written as printable ASCII only, between one and twelve characters per character |
| JsonText.Readable | api/utils.py:129 | without `ensure_ascii`, a text is written with between one and six characters per character |
| JsonText.UEscapeQuad | api/utils.py:129 | a `\u` escape of `json.dumps` is `\u` and four hex digits that spell the escaped value |
| JsonText.FourHexDigits | api/utils.py:96 | the four lowercase hex digits of a value below 0x1_0000 spell that value |
| JsonText.SurrogateRanges | api/utils.py:129 | the two escapes `json.dumps` writes for a character beyond U+FFFF are a high and a low surrogate that combine back into the character |
| JsonText.Beyond | api/utils.py:129 | `json.dumps` writes a character beyond U+FFFF as two surrogate escapes, and the readable form keeps it as it is |
| JsonText.ReadableIsClean | api/utils.py:127-129 | the readable form of a text UTF-8 can encode holds no raw control character and no lone surrogate |
| JsonText.PlainText | api/utils.py:129 | printable ASCII other than the quote and the backslash is written as it is in both forms |
| JsonText.EscapeIsPlainAfterBackslash | api/utils.py:129 | the text `\u` and four hex digits is written with its backslash doubled in both forms |
| JsonText.BackslashThenPlain | api/utils.py:129 | a backslash followed by plain text is written with the backslash doubled in both forms |
| JsonText.DecodeTwoEscapes | api/utils.py:104-107 | as written, two surrogate escapes in a row decode to two lone surrogates |
| JsonText.PairSplit | api/utils.py:104-129 | as written, a character beyond U+FFFF comes back from `json.dumps` and `decode_unicode` as two lone surrogates, which UTF-8 cannot encode |
| JsonText.ControlDecoded | api/utils.py:104-129 | as written, the escape of a control character without a short escape is decoded into the raw character, which a JSON string may not hold |
| JsonText.DoubledBackslashSplit | api/utils.py:94-129 | as written, any text `\u` and four hex digits, whose backslash `json.dumps` doubled, decodes to a backslash and the character the digits spell, not to its readable form |
| JsonText.DecodeAgreesOnBmp | api/utils.py:104-129 | as written, a text with no backslash, no control character, no surrogate and nothing beyond U+FFFF does decode to its readable form |
| JsonText.QuadValue | api/utils.py:96 | four hex digits after `\u` spell a value below 0x1_0000 |
| JsonText.Unit | api/utils.py:104-107 | corrected: each step of the scan consumes at least one character and produces no more than it consumes |
| JsonText.DecodeJson | api/utils.py:104-107 | corrected: decoding never lengthens the text |
| JsonText.DecodeJsonPairKept | api/utils.py:94-107 | corrected: a backslash and the character after it other than `u` are kept as one unit |
| JsonText.DecodeJsonQuad | api/utils.py:96-107 | corrected: a `\u` escape of a control character is kept, and any other non-surrogate one becomes its character |
| JsonText.DecodeJsonSurrogates | api/utils.py:96-107 | corrected: a high and a low surrogate escape in a row become the one character they encode |
| JsonText.DecodeJsonBmp | api/utils.py:104-129 | corrected: a character up to U+FFFF that `json.dumps` writes as a `\u` escape decodes to its readable form |
| JsonText.DecodeJsonBeyond | api/utils.py:104-129 | corrected: the surrogate pair `json.dumps` writes for a character beyond U+FFFF decodes to that character |
| JsonText.QuadPrefix | api/utils.py:96 | a `\u` escape keeps its value whatever text follows it |
| JsonText.DecodeJsonCopied | api/utils.py:107 | corrected: a character other than the backslash is copied |
| JsonText.DecodeJsonChar | api/utils.py:104-129 | corrected: the `json.dumps` form of any character other than a surrogate decodes to its readable form |
| JsonText.DecodeJsonReadable | api/utils.py:104-129 | corrected: the `json.dumps` form of any text UTF-8 can encode decodes to its readable form, which has no raw control character and no lone surrogate |

## Left out

- Directory.BuildReportsExactly and Directory.DirectoryReportsExactly: stated for a listing without repeats. With a repeat, the snapshot of line 32 is taken before the loop, so a link created at its first occurrence is fetched again at its second, fails with an integrity error and is reported although it is stored. `Directory.BuildReports` still covers that case.
- The Django ORM (`Anime.objects`, `episode_set`, `relation_set`) is not part of this model. `Catalog.Create`, `Catalog.Update` and `Catalog.CreateOrUpdate` state the assumed behaviour:
  - create raises an integrity error and writes nothing when the anime's URL or one of its episodes' URLs is already stored;
  - update never raises, and adds only the episodes not yet stored.
- Django's rule that a database error inside `transaction.atomic()` breaks the transaction is not modelled. A failed `Anime.create` is assumed to leave the store as it was, as if in its own savepoint. So later iterations of `create_directory` and `load_directory` go on normally after a failure.
- `transaction.atomic()` is modelled only for the cascade of lines 71-77, whose failure propagates and rolls back. In `create_directory` and `load_directory` every exception is caught inside the block, so the block never rolls back.
- The `False` argument of `create_or_update` (line 147) belongs to the model layer and has no effect in this model.
- `AnimeScrape.load_from_dict`, `json.loads`, `open` and `f.read()` are not part of this model. A directory file is given as `Missing`, `Malformed` (reading or parsing raised) or `Present` with its JSON. The loader is a function parameter from one JSON value to a record, a falsy value or an exception.
- An `open` failure on an existing file happens outside the `try` at line 135 and would propagate. It is not modelled.
- JSON objects with duplicate keys are not modelled. `json.loads` would keep the last value at the first key's position; here every member is a value.
- `load_directory` restores only the top-level values of a dict, one record each. The file `cache_directory_soft` writes has four top-level lists (`states`, `types`, `genres`, `animes`), so each list would go to the loader as one value. The model follows the code.
- `cache_directory`, `cache_directory_soft`, the serializers and file writing are not part of this model. `json.dumps` is modelled only for the text of one string (`JsonText.Ascii` and, for `ensure_ascii=False`, `JsonText.Readable`), which is where `decode_unicode` finds its escapes.
- `click.progressbar`, `click.secho` and `print` are not modelled as output. Their lines are returned as `Report` and `Message` values, in the order they would be printed.
- `decode_unicode` does not model the `\N{...}` name lookup. It needs the Unicode character database, and is the parameter `names`.
- `decode_unicode` does not model the codec's exception messages. An exception is an `Err` holding the rejected match.
- `get_anime`, `get_animeUrl_by_ep` and `get_all_animes` answer from a fixed `Source`. The network, timing and a site that changes between calls are not modelled, and the only scraper error modelled is the page being absent.
- Recents.FastPath: it assumes `Valid`. A stored episode whose anime row is missing would raise `Anime.DoesNotExist` from `format_data`; `Resolve` models that as `Dangling`, which `Valid` rules out.
- The order of `anime.relation_set.all()` (line 72) is taken to be the order in which the owner's page lists its relations. The query has no `order_by`, so the database may return the rows in another order. The order of the cascade's requests, and which related anime a failing cascade stops at, follow that assumed order. Where the model says "in the order the relations are read", it means this order.
- The `assert isinstance(tmpe, Episode)` of line 45 always holds here, because views are only made from stored episodes.
- Recents.FormatData: the instance dictionary is modelled by the six fields `Fields` lists. Django's other private attributes, for instance the cached `_anime_cache`, are not modelled.

## Findings

`cache_directory_soft` writes `decode_unicode(json.dumps(data))` to a UTF-8
file (`api/utils.py:127-129`). The evident intent is the readable form of
the same JSON, as `json.dumps(data, ensure_ascii=False)` would write it.
`decode_unicode` decodes each escape on its own and pairs no backslashes, so
three kinds of text come out wrong. The corrected decoder
`JsonText.DecodeJson` takes a backslash and the character after it as one
unit, keeps the escapes of control characters and joins surrogate pairs.
`JsonText.DecodeJsonReadable` proves that it gives the readable form for
every text UTF-8 can encode. Nothing else in the model calls `decode_unicode`:
`cache_directory_soft` is its only caller.

| source | as written | input that shows it | evidently intended | confidence | as-written member | corrected member |
|---|---|---|---|---|---|---|
| api/utils.py:104-129 | each `\u` escape is decoded on its own, so the surrogate pair `json.dumps` writes for a character beyond U+FFFF becomes two lone surrogates, and writing them to the UTF-8 file raises | a title holding U+1F600, written by `json.dumps` as `\ud83d\ude00` | the one character U+1F600 | high; not executed | JsonText.PairSplit | JsonText.DecodeJsonReadable |
| api/utils.py:104-129 | the `\u00XX` escape `json.dumps` writes for a control character is decoded into the raw character, which makes the file invalid JSON | a synopsis holding U+0001, written as `\u0001` | the escape `\u0001` kept | high; not executed | JsonText.ControlDecoded | JsonText.DecodeJsonReadable |
| api/utils.py:94-129 | a backslash doubled by `json.dumps` is not paired with its partner, so the second backslash starts a new match | the text `\u0041`, written as `\\u0041` and decoded to `\A`, an escape JSON does not have | the text `\\u0041` kept | high; not executed | JsonText.DoubledBackslashSplit | JsonText.DecodeJsonReadable |
