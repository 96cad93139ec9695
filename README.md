# Mood journal core, modelled in Dafny

This project models the logic under a small mood-journal progressive web
app. Users log daily entries ("wpisy") with a date (`data_wpisu`), mood
(`nastroj`), energy (`energia`) and stress (`stres`), each on a 1–10 scale,
plus an optional description (`opis`) and photo. The app:

- scores the last seven days into a wellbeing index and turns it into advice;
- keeps a history list that can be filtered, edited and deleted;
- shows a weather panel with a 30-minute cache;
- guards its private screens behind a hash router;
- mirrors data into a JSON key-value cache in local storage.

The model has one module per concern:

| module | file | what it models |
|---|---|---|
| `JsValues` | `js_values.dfy` | Option/Result, JavaScript numbers as canonical decimals, `trim`, `replaceAll` of one character, `String(n)`, string `<` |
| `JsonText` | `json.dfy` | `JSON.stringify` and `JSON.parse` as a concrete printer and parser, with the round trip proved |
| `Offline` | `offline.dfy` | `cacheSet` / `cacheGet` over a `localStorage` class |
| `EntryStore` | `entry_store.dfy` | the `WpisyStore` closure as a class; the backend is an oracle parameter |
| `HashRouter` | `router.dfy` | the route map, `navigate`, `getPathFromHash` and `handle` as a class |
| `App` | `app.dfy` | the tri-state login flag, `guard`, the route table, the auth listener and the startup redirect |
| `Wellbeing` | `wellbeing.dfy` | `normPos`, `normNeg`, `wellbeingScore`, `score7Days` and `interpret`, over `real` |
| `Advice` | `advice.dfy` | what the advice screen computes from `interpret`, as written and as intended |
| `Html` | `html.dfy` | `escapeHtml` and its inverse |
| `Base64` | `base64.dfy` | `urlBase64ToUint8Array`, and `atob` as forgiving-base64 decoding (section 4 of RFC 4648, with the base64url alphabet of section 5) |
| `Entries` | `entries.dfy` | `cacheKeyEntries`, `todayISO`, new-entry validation, the insert/update payloads and the insert/update/delete request outcomes |
| `History` | `history.dfy` | `applyDateFilter`, the newest-first sort, and the delete and edit actions of the history list |
| `Weather` | `weather.dfy` | `weatherIcon` against WMO code table 4677, the cache freshness check and `guessCityFromTimezone` |

Some things become parameters:

- Backend answers: the session user, the error of a select, insert, update or delete, and the rows returned.
- The connection state, `Date.now()` and the time zone.
- The answers to `confirm` and `prompt`, and what `Number(...)` reads from text.

The code subtracts 0.15 and then a further 0.25 when stress is at least 9,
a total of 0.40. The model follows the code.

`js/wpisyStore.js:2` imports `saveLocal` and `loadLocal`, which
`js/offline.js` does not export. The store is therefore modelled with the
semantics of `cacheSet` and `cacheGet`.

## Model

| member | source | states |
|---|---|---|
| Wellbeing.NormPos | js/views.js:94-96 | the result lies in [0,1]: 0 at or below 1, 1 at or above 10, and linear (v−1)/9 in between |
| Wellbeing.NormNeg | js/views.js:98-100 | the result lies in [0,1] and is exactly 1 − normPos(v) |
| Wellbeing.NormPosMonotone | js/views.js:94-96 | normPos never decreases as its argument grows |
| Wellbeing.Weighted | js/views.js:103-108 | the 0.35/0.35/0.30 weighted sum of the normalised inputs lies in [0,1] |
| Wellbeing.Penalty | js/views.js:111-115 | the total penalty lies between 0 and 0.5 |
| Wellbeing.Clamp01 | js/views.js:117 | the clamp lands in [0,1] and leaves values already in [0,1] unchanged |
| Wellbeing.WellbeingScore | js/views.js:102-118 | the score always lies in [0,1] |
| Wellbeing.PenaltiesAccumulate | js/views.js:108-117 | the score is the clamped weighted sum minus the penalties; stress ≥ 9 costs 0.40 in total, and 0.50 together with energy ≤ 3 |
| Wellbeing.HighStressCap | js/views.js:108-117 | with stress ≥ 9, no mood or energy lifts the score above 1/3 |
| Wellbeing.BestDay | js/views.js:102-118 | mood 10, energy 10 and stress 1 score exactly 1 |
| Wellbeing.WorstDay | js/views.js:102-118 | mood 1, energy 1 and stress 10 score exactly 0 |
| Wellbeing.ScoreMonotone | js/views.js:102-118 | more mood, more energy or less stress never lowers the score |
| Wellbeing.Sample.DayScore | js/views.js:76-82 | a valid row's score, taking `nastroj ?? mood` and so on, lies in [0,1] |
| Wellbeing.FirstSeven | js/views.js:66 | the first min(7, n) rows, in order; all rows when there are at most 7 |
| Wellbeing.ValidOnly | js/views.js:69-74 | keeps exactly the rows whose three values are finite numbers, and is empty iff none is |
| Wellbeing.DayScores | js/views.js:76-82 | one score per valid row, in order, each in [0,1] |
| Wellbeing.Min | js/views.js:87 | the minimum is an element and is at most every element |
| Wellbeing.Max | js/views.js:88 | the maximum is an element and is at least every element |
| Wellbeing.SumBounds | js/views.js:84 | elementwise bounds bound the sum |
| Wellbeing.AverageBetween | js/views.js:84 | a total between n·lo and n·hi averages to a value between lo and hi |
| Wellbeing.AverageInRange | js/views.js:84-88 | min ≤ avg ≤ max |
| Wellbeing.Summarize | js/views.js:84-91 | days = number of scores; daily is the scores; 0 ≤ min ≤ avg ≤ max ≤ 1; min and max bound every daily score |
| Wellbeing.Score7Days | js/views.js:65-92 | null exactly when none of the first seven rows is valid; otherwise the summary of the valid rows among the first seven, with 1 ≤ days ≤ 7 |
| Wellbeing.Score7DaysIgnoresOlder | js/views.js:66 | rows after the seventh never change the result |
| Wellbeing.MetricSum | js/views.js:21-28 | the `reduce` sum of one metric is NaN exactly when some row's value is not finite |
| Wellbeing.Average | js/views.js:21-28 | the average is NaN exactly when the sum is, and otherwise times the row count gives the sum |
| Wellbeing.Interpret | js/views.js:13-61 | "Brak danych" exactly for missing or empty entries or a non-number score; every other level exactly when its own row of the table holds and no earlier row does (stress ≥ 7, energy ≤ 4, score < 4, score ≥ 7.5 with stress < 5), "Średnio" exactly when none holds |
| Wellbeing.OverloadWhateverScore | js/views.js:30-35 | an average stress of at least 7 gives "Przeciążenie" whatever the score |
| Wellbeing.MissingCountsAsZero | js/views.js:21-28 | a missing field adds the same as an explicit 0 to the averages |
| Wellbeing.ReplaceMissing | js/views.js:21-28 | the rows with each missing value of one metric set to 0, no value of that metric left missing |
| Wellbeing.ZeroIfMissing | js/views.js:21-28 | a missing value becomes 0 and a present one is kept |
| Advice.AdviceAsWritten | js/views.js:1387-1390 | with the arguments swapped as in the source, a non-null score always gives "Brak danych" |
| Advice.AdviceUnscaled | js/views.js:1387-1390 | passing avg in [0,1] as the score can only give "Przeciążenie", "Niskie zasoby" or "Trudniejszy czas" |
| Advice.AdviceCorrected | js/views.js:1387-1390 | with the arguments in order and the average scaled to 0–10, a non-null score never gives "Brak danych"; "Super" needs an average of at least 0.75 and "Trudniejszy czas" one below 0.4 |
| Advice.PerfectDayValues | js/views.js:70-73 | the sample day has valid mood 10, energy 10 and stress 1 |
| Advice.BestDaySummary | js/views.js:65-92 | one perfect day summarises to avg = min = max = 1 over 1 day |
| Advice.BestDayAverages | js/views.js:21-28 | one perfect day has average stress below 5 and energy above 4 |
| Advice.BestDayLevels | js/views.js:1387-1390 | a perfect day gets "Brak danych" as written, "Trudniejszy czas" unscaled and "Super" corrected |
| Advice.PerfectDayLevels | js/views.js:1387-1390 | the same three levels for a concrete perfect day |
| Html.AsText | js/views.js:135 | null or undefined become "", text stays as it is |
| Html.EscapeHtml | js/views.js:134-142 | the output holds no `<`, `>`, `"` or `'`, and null/undefined give "" |
| Html.Passes | js/views.js:136-141 | the five replacement passes in order leave none of `< > " '` |
| Html.PassesAppend | js/views.js:136-141 | the passes distribute over concatenation |
| Html.EscapeIsPerCharacter | js/views.js:136-141 | replacing `&` first makes the five passes equal to escaping each character on its own |
| Html.UnescapeEscape | js/views.js:134-142 | decoding the five entities recovers the original text: nothing is lost |
| Html.UnescapeEach | js/views.js:136-141 | decoding undoes per-character escaping |
| Html.AmpersandsStartEntities | js/views.js:136-141 | every `&` in escaped text starts one of the five entities |
| Html.EscapeHtmlAmpersands | js/views.js:134-142 | every `&` in `escapeHtml`'s output starts `&amp;`, `&lt;`, `&gt;`, `&quot;` or `&#39;` |
| Base64.StdChar | js/views.js:228 | the standard alphabet is decoded back to the same 6-bit value |
| Base64.UrlChar | js/views.js:228 | the base64url alphabet uses `-` for 62 and `_` for 63, matches the standard one below 62, and never emits `=`, `+` or `/` |
| Base64.Padding | js/views.js:227 | fewer than four `=` characters, bringing the length to a multiple of 4 |
| Base64.ToStandard | js/views.js:227-228 | the re-padded, re-alphabeted text has a length that is a multiple of 4 |
| Base64.Swap | js/views.js:228 | position by position, one character is swapped for another |
| Base64.ReplaceSingle | js/views.js:228 | a one-character `replace(/c/g, d)` is a position-wise swap |
| Base64.ReplaceSingleLength | js/views.js:228 | that replacement keeps the length |
| Base64.RemoveSpace | js/views.js:229 | atob's input with ASCII white space removed holds none; text without any is unchanged |
| Base64.StripPadding | js/views.js:229 | atob drops trailing padding only, giving a prefix of its input |
| Base64.Sextets | js/views.js:229 | one 6-bit value per character |
| Base64.EncodeSextets | js/views.js:229 | encoded groups never leave a lone trailing sextet |
| Base64.BitsRejoin | js/views.js:229 | splitting three bytes into four sextets and rejoining gives the bytes back |
| Base64.DecodeEncode | js/views.js:229 | decoding the sextets of any byte sequence gives that sequence |
| Base64.ToBytes | js/views.js:230-231 | a new array whose bytes are exactly the decoded ones, in order |
| Base64.UrlBase64ToUint8Array | js/views.js:226-233 | fails with InvalidCharacterError exactly when atob rejects the re-padded text; otherwise a fresh array holding exactly atob's bytes |
| Base64.DecodePublishedKey | js/views.js:226-233 | any key published in unpadded base64url decodes back to its bytes |
| Base64.StandardOfUrl | js/views.js:227-228 | re-alphabeting base64url text gives standard text plus padding |
| Base64.AtobOfStandard | js/views.js:229 | atob accepts padded standard text and decodes its sextets |
| Base64.Atob | js/views.js:229 | `atob` fails exactly when the text, spaces and final padding removed, has length 1 mod 4 or a character outside the standard alphabet; otherwise it gives every whole byte the 6-bit groups make: 4·bytes ≤ 3·chars < 4·bytes + 4 |
| Base64.DecodeSextets | js/views.js:229 | four sextets make three bytes, a final two or three make one or two: 4·bytes ≤ 3·sextets < 4·bytes + 4 |
| Base64.AtobAccepts | js/views.js:229 | atob succeeds on cleaned text of valid length over the standard alphabet |
| Entries.CacheKeyEntries | js/views.js:236-240 | the key is `wpisy_cache_` followed by the user id, or by `anon` when there is none |
| Entries.CacheKeysSeparateUsers | js/views.js:236-240 | two different users never share a cache key |
| Entries.AnonymousKey | js/views.js:238 | every missing user id maps to the key of the user `anon` |
| Entries.CacheKeyNotStoreKey | js/views.js:236-240 | the per-user key never collides with the store's `wpisy_cache` |
| Entries.TodayIso | js/views.js:126-132 | the year, then the month counted from 1 and the day, each as two zero-padded digits, joined by dashes |
| Entries.PadStart2 | js/views.js:129-130 | `padStart(2, "0")`: short text gets leading zeros up to width 2, longer text is kept |
| Entries.IsoLayout | js/views.js:126-132 | for a four-digit year the date is YYYY-MM-DD, ten characters, with the month counted from 1 |
| Entries.IsoOrderIsCalendarOrder | js/views.js:126-132 | for four-digit years, string order of the dates is calendar order |
| Entries.MonthDayOrder | js/views.js:129-131 | the zero-padded month and day compare as the numbers do |
| Entries.LexLessPadDigits | js/views.js:129-130 | zero-padded numbers of equal width compare as the numbers do |
| Entries.FieldText | js/views.js:1064 | a missing field gives "" and the text never starts or ends with trimmable space |
| Entries.ValidateForm | js/views.js:1063-1084 | accepts exactly when mood, energy and stress are finite numbers in 1–10; otherwise the first failing field's message, in that order |
| Entries.NullIfFalsy | js/views.js:315-316 | a falsy value becomes null and a truthy one is kept |
| Entries.NonEmpty | js/views.js:315-316 | an empty or missing text becomes null |
| Entries.InsertPayload | js/views.js:309-317 | the user id, date and scores are passed through; an empty description or photo path becomes null |
| Entries.UpdatePayload | js/views.js:330-337 | the date and scores are passed through; the description and photo path are null unless truthy |
| Entries.InsertEntry | js/views.js:303-322 | succeeds exactly when online, signed in and the insert reports no error; otherwise the offline, session or backend error, in that order |
| Entries.UpdateEntry | js/views.js:324-347 | succeeds exactly when online, signed in and the update reports no error; otherwise the errors in order |
| Entries.DeleteEntry | js/views.js:349-370 | succeeds exactly when online, signed in and both the select and the delete succeed; otherwise the first error |
| Entries.OfflineNeverWrites | js/views.js:304 | offline, insert, update and delete all fail with their own message, whatever the backend would say |
| History.InRangeText | js/views.js:1209-1217 | a row with a text date is kept exactly when from ≤ date ≤ to in string order, an empty bound being ignored |
| History.Keep | js/views.js:1211-1216 | the filter never lengthens the list |
| History.ApplyDateFilter | js/views.js:1209-1217 | with both bounds empty the list itself is returned |
| History.KeepSpec | js/views.js:1211-1216 | the result is an order-preserving sub-list; it holds exactly the in-range rows, each as often as in the input |
| History.KeepWithoutBounds | js/views.js:1210-1216 | filtering with two empty bounds keeps every row |
| History.ApplyDateFilterSpec | js/views.js:1209-1217 | order-preserving sub-list of exactly the in-range rows, with their multiplicities |
| History.NotLessTrans | js/views.js:1318 | "not earlier than" on dates is transitive |
| History.InsertByDate | js/views.js:1318 | inserting into the sorted list adds exactly that row |
| History.InsertByDateSorted | js/views.js:1318 | inserting into a newest-first list keeps it newest-first |
| History.ConsDescending | js/views.js:1318 | a row no older than all the others can go in front of a newest-first list |
| History.SortByDateDesc | js/views.js:1318 | the result is newest first by `data_wpisu` and is a permutation of the input |
| History.ReplaceValueLast | js/views.js:1347 | overwriting a key's value changes the lookup of that key only |
| History.Put | js/views.js:1347 | `{...x, key: v}`: the key reads v and every other key reads as before |
| History.SpreadObject | js/views.js:1347 | `{ ...x }` is an object: an object row as it is, an array or a string by its indices, nothing from other values; the `id` is kept |
| History.Edited | js/views.js:1347 | the edited row has the new date, mood and description, and every other field of the spread row unchanged |
| History.Find | js/views.js:1306 | a row of the list whose `String(id)` matches, or none exactly when no row matches |
| History.FindFirst | js/views.js:1306 | the row found is the first one whose id matches |
| History.Without | js/views.js:1316 | the filtered list is never longer than the input, and rows with text dates stay so |
| History.WithoutMembers | js/views.js:1316 | the rows with that id are gone and every other row is still there |
| History.WithoutCounts | js/views.js:1316 | every row with another id stays as often as it was there |
| History.DeleteLeavesOthers | js/views.js:1316-1318 | after delete and sort, no row has the id and every other row is kept with its multiplicity |
| History.EditRows | js/views.js:1345-1349 | rows with another id are untouched; rows with the id are the edited rows, at the same place; rows with text dates stay so |
| History.EditKeepsId | js/views.js:1345-1349 | an edit never changes any row's id |
| History.OldDesc | js/views.js:1331 | the stored description when it is text, "" when it is missing or falsy, and no text at all (the case `trim` throws on) when it is truthy but not text |
| History.EditRequest | js/views.js:1329-1341 | a mood that is not a finite number in 1–10 throws first; otherwise the date falls back to the old one, and the description is the trimmed answer; a cancelled description prompt keeps the old description, trimmed; an old description that is truthy but not text throws `trim`'s TypeError; any other in-range mood succeeds |
| History.PhotoOf | js/views.js:1342 | the row's photo path, undefined exactly when the row has none |
| History.EditPayload | js/views.js:1337-1343 | the update sends the new date and mood and leaves energy and stress undefined |
| History.HistoryList.constructor | js/views.js:1306-1356 | the list starts as the given rows over the given storage |
| History.HistoryList.Delete | js/views.js:1300-1324 | an empty id changes nothing; after a confirmed, successful delete the list is the rows without that id, newest first, and is written under the user's key; otherwise nothing changes and the error is returned |
| History.HistoryList.ApplyEdit | js/views.js:1337-1354 | a failed update changes nothing; a successful one puts the edited rows, newest first, into the list and under the user's key |
| History.HistoryList.Edit | js/views.js:1300-1356 | an empty id changes nothing; after a valid, successful edit the list is the edited rows, newest first, and is written under the user's key; an invalid mood or a failed update changes nothing |
| Weather.CodeNumber | js/views.js:1451-1478 | the integer the code equals under `===`, if any |
| Weather.IconFollowsTable | js/views.js:1451-1478 | every documented WMO 4677 code gets the picture of its condition, by day or night; everything else gets the thermometer |
| Weather.IconOfLowCode | js/views.js:1455-1460 | the table holds for codes below 45 |
| Weather.IconOfMiddleCode | js/views.js:1460-1468 | the table holds for codes 45–69 |
| Weather.IconOfHighCode | js/views.js:1469-1477 | the table holds for codes from 70 |
| Weather.FallbackIffUndocumented | js/views.js:1451-1478 | the thermometer shows exactly when the code is not in the table |
| Weather.Age | js/views.js:1482 | a numeric timestamp gives now − ts, and a missing one gives NaN |
| Weather.CacheStep | js/views.js:1480-1489 | a cached reading is used only when it has a text; a fresh one is fetched exactly when online and the cache is not fresh; "no data" exactly when offline and the cache has no text |
| Weather.OfflineReusesAnyReading | js/views.js:1486-1487 | offline, a stored reading with a text is reused however old it is |
| Weather.Reading | js/views.js:1526 | the cached object starts with `ts` and `text` |
| Weather.ReadingFields | js/views.js:1526 | a stored reading reads back its `ts` and `text` |
| Weather.LastValueFrom | js/views.js:1482 | the last member with a key gives that key's value |
| Weather.ReusedWithinHalfHour | js/views.js:1481-1483 | a reading with text stored less than 30 minutes ago is reused, online or not |
| Weather.RefetchedAfterHalfHour | js/views.js:1481-1489 | from 30 minutes on, an online browser fetches anew |
| Weather.RefreshClearsReading | js/views.js:825 | after the refresh button stores null, online fetches anew and offline reports no data |
| Weather.LastSegment | js/views.js:1532 | the text after the last `/` holds no `/` and is no longer than the zone |
| Weather.LastSegmentSuffix | js/views.js:1532 | that text ends the zone, and a `/` stands right before it unless it is the whole zone |
| Weather.GuessCityFromTimezone | js/views.js:1530-1538 | never empty; "Twoja okolica" without a zone; otherwise a name without `/` or `_`, or the fallback |
| Weather.CityFromZone | js/views.js:1532-1534 | `Area/New_York` gives `New York` |
| Weather.SuffixWithoutSlash | js/views.js:1532 | a slash-free suffix after a `/` is the last segment |
| Offline.StoredText | js/offline.js:15 | the stored text parses back to the value; `undefined` is stored as text that does not parse |
| Offline.LocalStorage.constructor | js/offline.js:14-16 | the store starts with the given items |
| Offline.LocalStorage.CacheSet | js/offline.js:14-16 | only the key changes, to the value's JSON text; every other key keeps its text |
| Offline.CacheGet | js/offline.js:18-26 | a missing key or text that fails to parse gives the fallback; otherwise the parsed value |
| Offline.CacheGetAfterSet | js/offline.js:14-26 | reading a key after storing a JSON value gives that value, `null` included |
| Offline.CacheGetAfterSetUndefined | js/offline.js:14-26 | after storing `undefined`, reading gives the fallback |
| Offline.CacheGetOtherKey | js/offline.js:14-26 | storing under one key never changes what another key reads |
| JsonText.Stringify | js/offline.js:15 | the text is never empty and starts like a JSON value |
| JsonText.ParseStringify | js/offline.js:15-22 | parsing the text of any value gives that value back |
| EntryStore.Spread | js/wpisyStore.js:51 | spreading an array gives its items, and text gives its characters; anything else throws |
| EntryStore.AddPayload | js/wpisyStore.js:41-46 | the payload starts with the user id and holds `data_wpisu` exactly when it is truthy |
| EntryStore.WpisyStore.constructor | js/wpisyStore.js:5-6 | no client yet; the list is what the cache holds under `wpisy_cache`, or [] |
| EntryStore.WpisyStore.Init | js/wpisyStore.js:8-10 | sets the client and keeps the list |
| EntryStore.WpisyStore.GetAll | js/wpisyStore.js:12-14 | returns the current list |
| EntryStore.WpisyStore.FetchMine | js/wpisyStore.js:16-32 | throws before init; gives [] without a user; on success the list and the cache are replaced by the rows, or [] for null data; errors change nothing |
| EntryStore.WpisyStore.Add | js/wpisyStore.js:34-54 | throws before init or without a user; on success the list becomes the new row followed by the old list and is mirrored to the cache; errors change nothing |
| EntryStore.ReloadAfterAdd | js/wpisyStore.js:48-53 | after an add, a fresh store reads the prepended list back from the cache |
| HashRouter.NormalizePath | js/router.js:10 | the result starts with `/`; a `/` is prepended exactly when missing |
| HashRouter.PathFromHash | js/router.js:14-20 | always starts with `/`; an empty hash gives `/`; `#p` gives p normalised |
| HashRouter.NormalizeIdempotent | js/router.js:9-20 | normalising twice is normalising once |
| HashRouter.HashWithOrWithoutSlash | js/router.js:14-20 | `#login` and `#/login` both give `/login` |
| HashRouter.Lookup | js/router.js:25 | the exact route if registered, else `/404` if registered, else nothing |
| HashRouter.LookupAfterRegister | js/router.js:4-7 | a registered path finds its view, and every other path finds what it found before |
| HashRouter.Router.constructor | js/router.js:2 | no routes yet |
| HashRouter.Router.RegisterRoute | js/router.js:4-7 | the path now maps to the view, the last registration winning; nothing else changes |
| HashRouter.Router.Navigate | js/router.js:9-12 | the hash becomes `#` plus the normalised path, and reading it back gives that path |
| HashRouter.Router.Handle | js/router.js:23-31 | picks the view the lookup gives for the current hash |
| App.EntryPagesPublic | js/app.js:38-40 | `/`, `/logowanie` and `/rejestracja` are not private |
| App.GuardDecision | js/app.js:42-56 | loading exactly while the state is unknown; to `/logowanie` exactly for a signed-out private path; to `/(tabs)/home` exactly for a signed-in entry page; allowed otherwise |
| App.NoRedirectLoop | js/app.js:42-56 | any redirect target is allowed by the guard under the same state and is a mounted, guarded route |
| App.OfflineAlwaysAllowed | js/app.js:42-56 | `/offline` is shown signed in or not |
| App.Mount | js/app.js:58-71 | the nine paths are registered, each guarded on its own path except `/404`; other routes are kept |
| App.StartupPath | js/app.js:88 | an empty hash reads as `/`, otherwise the hash without `#` |
| App.App.constructor | js/app.js:22 | the login state starts unknown and the router empty |
| App.App.CheckSession | js/app.js:33-36 | the state becomes whether the session has a user |
| App.App.Guard | js/app.js:42-56 | returns true exactly when allowed; otherwise shows loading or navigates to the one redirect target |
| App.App.RunRoute | js/app.js:60-70 | a guarded view renders only if the guard on its own path allowed it; `/404` always renders |
| App.App.MountRoutes | js/app.js:58-71 | the router's map becomes the mounted table |
| App.App.HandleHash | js/router.js:23-31 | runs the route the current hash looks up, or does nothing |
| App.App.OnAuthChange | js/app.js:77-82 | sets the state and navigates to `/(tabs)/home` when signed in, else `/logowanie` |
| App.App.StartupRedirect | js/app.js:88-91 | a signed-in start on an entry page moves to `/(tabs)/home`; nothing else moves |
| App.HashAfterHandle | js/app.js:42-56 | the first `handle` leaves the fragment as it was or moves it to the login page or home, the latter only for a guarded route |
| App.TargetShown | js/app.js:42-70 | login (signed out) and home (signed in) are mounted, guarded routes their own guard lets through |
| App.HandledInPlace | js/app.js:42-70 | when the first `handle` leaves the fragment unchanged, its route was `/404` or allowed by its guard |
| App.App.Start | js/app.js:73-91 | the session state is known and the routes mounted; the final fragment is the start one after the guard's redirect and the signed-in entry-page redirect; the `hashchange` listener (js/router.js:33) re-runs `handle` on a changed fragment, so the page ends showing the view the final fragment looks up, which its guard allows |
| App.App.Logout | js/app.js:95-99 | the hash returns to `#/` |

## Left out

- DOM rendering and event wiring are not modelled: templates, `renderShell`, `renderLoading`'s markup, `setHeaderForAuth` and `bindOfflineBanner`. The model records only which screen is shown.
- The answers to `alert`, `confirm` and `prompt` are parameters. So is the value `Number(...)` reads from a prompt or form text.
- Backend calls are oracle parameters: the session user, and the errors or rows of select, insert, update and delete. Removing a deleted entry's photo from storage only logs a warning and is not modelled.
- The photo cropper and upload, web push, the edge functions and the service worker are outside this model.
- Geolocation, `fetch`, the weather text template and the wording of the weather error texts are not modelled. Only the cache decision before the fetch is.
- The `hashchange` listener is modelled inside App.App.Start only: there, a fragment changed by the guard or the start-up redirect is handled once more. After App.App.Guard, App.App.OnAuthChange and App.App.Logout the model ends with the new fragment written; the browser's later run of `handle` is a separate call of App.App.HandleHash. The auth listener's first call during start-up is not part of App.App.Start.
- Async interleaving is not modelled. Each handler runs to completion. Overlapping renders and listener races are left out.
- Exact IEEE-754 rounding is not modelled. Scores are `real`, and numbers read from rows or forms are finite decimals. Infinity and NaN are both treated as "not finite".
- JSON number exponents, `\u` escapes of surrogate pairs, and `toJSON` or non-JSON values other than `undefined` are not part of the JSON model.
- JsonText.Stringify: writes numbers in plain decimal form, never JavaScript's exponent form for very large or very small numbers.
- `location.hash` is modelled as plain text. The browser's percent-encoding of the hash is left out.
- `normPos` and `normNeg` take their `min = 1, max = 10` defaults, the only values the code uses.
- History.SortByDateDesc: a stable sort on a sequence, proved newest-first and a permutation. The engine's in-place `Array.prototype.sort` may order rows with equal dates differently; the model does not capture that tie order or the in-place update.
- History.HistoryList.Delete, History.HistoryList.Edit, History.HistoryList.ApplyEdit and History.HistoryList.constructor: assume every row's `data_wpisu` is text (the backend column is a date). The comparator's behaviour on other values is not modelled.
- History.InRangeText: its statement covers rows with text dates. A row that is `null` makes the source throw, and the filter model does not cover it.
- Weather.Age: a timestamp stored as text or as an array counts as NaN. JavaScript would coerce numeric text, and an array such as `[]` or `[5]`, to a number; the app only stores numbers there.
- Weather.GuessCityFromTimezone: the guarantee for a zone with a city is weaker than the code. The result is either the city with `_` replaced by spaces, or the fallback; Weather.CityFromZone states the exact result for zones of the form area/city.
- Base64.UrlBase64ToUint8Array: the error is modelled as the message "InvalidCharacterError". The DOMException object itself is not modelled.
- EntryStore.Spread: a non-iterable list throws a TypeError whose engine wording is replaced by a fixed message.
- History.EditRequest: a description that is not text makes `trim` throw; its message is taken in V8's wording, "newDesc.trim is not a function", which other engines phrase differently.
- Base64.EncodeSextets: states only that no lone sextet is left. Its exact length is shown through the round trip, not as a formula.

## Findings

| source | as written | input that shows it | evidently intended | confidence | as-written member | corrected member |
|---|---|---|---|---|---|---|
| js/views.js:1390 | `interpret(score, entries)` passes the summary where the entries belong and the entries where the score belongs; the summary has no `length`, so the advice is always "Brak danych" | one entry with mood 10, energy 10 and stress 1 | `interpret(entries, score)` | not executed | Advice.AdviceAsWritten | Advice.AdviceCorrected |
| js/views.js:1387-1390 | `score.avg` lies in [0,1], but `interpret` tests it against 4 and 7.5, so with the arguments in order the score branch always says "Trudniejszy czas" | one entry with mood 10, energy 10 and stress 1 (avg 1) | compare avg on the 0–10 scale (avg × 10) | not executed | Advice.AdviceUnscaled | Advice.AdviceCorrected |
