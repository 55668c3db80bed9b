# Movie picker store, modelled in Dafny

The back end of the movie-night voting app runs as a spreadsheet-hosted web
script. It keeps three sheets:

- **Movies**: ID, Title, Votes, Watched Date, Marked By.
- **Suggestions**: an append-only log of Timestamp, Name, Title.
- **Votes**: an append-only log of Timestamp, Voter Name, Pick #1..#3.

It answers two HTTP verbs. `doGet` returns the movie list (`movies` or
`leaderboard`). `doPost` dispatches on the body's `type`: `vote`,
`suggestion`, `markWatched` and `unmarkWatched`.

This project models that store as a class, `AppsScript.Store`. The class has
one `seq` field per sheet. Its methods do what the script does: the same
linear scans, dictionaries, appends and in-place cell writes. Each method is
proved against a specification function of the old tables. Those functions
live in their own modules:

- `Ascii`: case folding.
- `Sheets`: row types, and first-match and last-match lookup.
- `Listing`: what `getMovies` reports.
- `Tally`: what a vote does.
- `Catalog`: suggestions and watch marks.

Lemmas then prove, about those functions, the promises the script makes:

- The first suggestion of a title gets the credit.
- The legacy vote payload and the object vote payload agree.
- Unknown picks are ignored.
- When two rows share a title, the later row gets the votes.
- Votes are conserved.
- A repeated suggestion never adds a second row.
- Ids keep increasing.
- Marking a movie watched touches only the first match.
- Unmarking after marking leaves the movie unwatched.

Modelling choices:

- **Header rows are not stored.** Index k of `movies`, `suggestions` or
  `votes` is values index k + 1 of the sheet, which is sheet row k + 2. The
  script's `i = 1` loop starts and its `mdata.length > 1` tests therefore
  become starts at 0 and `|movies| > 0`.
- **Time is a parameter.** `new Date()` is the `now: Timestamp` argument,
  in milliseconds.
- **`toLowerCase` is ASCII folding** (`Ascii.Lower`).
- **Free-form cells have a `Cell` type.** The Watched Date and Marked By
  columns can hold anything, so their cells are `Blank | Str | Num | Date`.
  `cell || null` is modelled with JavaScript truthiness (`Sheets.Truthy`).
  Writing `""` to a cell empties it, so unmarking stores `Blank`, and a
  mark by an empty marker name stores `Blank` too (`Sheets.Written`).
- **Vote payloads have two shapes.** `picks` is `Counts(entries)` (the
  `Object.entries` of the object form, in the order they come out) or
  `Titles(titles)` (the legacy array). Both `forEach` branches of
  `recordVote` run the same update loop, `Store.AddVotes`. The object form
  adds `count` per entry. The legacy form adds 1 per element
  (`Tally.Ones`).
- **Responses have a type.** A response is `Json(movies)` or `Plain(text)`.
  A POST body is a `PostBody` record whose `kind` is the `type` field.

Three behaviours of the script are easy to miss:

- `markMovieWatched` always writes the current time
  (google-apps-script.js:166); it ignores any `watchedDate` in the request.
- `markMovieWatched` does not reject a movie that is already watched
  (google-apps-script.js:164-167). It overwrites the date and marker
  (`Catalog.MarkOverwrites`).
- Vote picks may be the legacy array as well as the object form
  (google-apps-script.js:70-72, 100-108).

## Model

| member | source | states |
|---|---|---|
| `Ascii.Lower` | google-apps-script.js:36 | Lowercasing keeps the length, and each character is folded on its own ('A'..'Z' to 'a'..'z', all others kept). |
| `Sheets.First` | google-apps-script.js:163-171 | Gives the first index holding the key, with no match before it. Gives None exactly when the key is absent. |
| `Sheets.Last` | google-apps-script.js:85-88 | Gives the last index holding the key, with no match after it. This is the row a dictionary filled in sheet order keeps. None exactly when absent. |
| `Sheets.FirstSnoc` | google-apps-script.js:37 | Scanning one more suggestion keeps an earlier first match. Only a title never seen before gets the new row as its first match. |
| `AppsScript.SuggesterMap` | google-apps-script.js:33-43 | The suggester map has exactly the lowered titles of Suggestions as keys. Each key maps to the name and time of that title's first suggestion. |
| `Listing.Movies` | google-apps-script.js:45-58 | One record per Movies row, in order, keeping id, stored title casing and votes. Suggester and timestamp come from the first suggestion whose lowered title matches, and are both null when none matches. Watched date and marked-by are null exactly when the cell is falsy, otherwise they are the cell. |
| `Listing.CreditSnoc` | google-apps-script.js:35-43 | Appending a suggestion keeps any credit already present. It credits its own title only when that title was never suggested. |
| `Listing.LaterSuggestionIgnored` | google-apps-script.js:35-43 | Suggesting a title again, in any casing, changes no `getMovies` record. |
| `AppsScript.Store.GetMovies` | google-apps-script.js:25-60 | Returns `Listing.Movies` of the current Movies and Suggestions tables. |
| `AppsScript.Store.GetLeaderboard` | google-apps-script.js:62-64 | Returns the same list as `getMovies`. |
| `AppsScript.TitleToRow` | google-apps-script.js:85-88 | The dictionary's keys are exactly the lowered titles of Movies. Each key maps to the last row with that title. |
| `Tally.ExpandAppend` | google-apps-script.js:70-72 | Flattening object picks keeps entry order: the flattened list of a concatenation is the concatenation of the flattened lists. |
| `Tally.ExpandedWeight` | google-apps-script.js:71 | For every title, the flattened list holds that title (case-insensitively) as many times as the counts of its entries add up to. |
| `Tally.ExpandLength` | google-apps-script.js:70-72 | The flattened list of object picks is as long as their counts add up to. |
| `Tally.VoteLineFirstThree` | google-apps-script.js:75-81 | With three or more picks the Votes row is `[now, name, p0, p1, p2]`, and picks beyond the third are not logged. With no picks it is `[now, name, "", "", ""]`. |
| `Tally.VoteLinePadded` | google-apps-script.js:78-80 | With fewer than three picks the Votes row is that of the picks padded with `""` to three: every missing pick is logged as `""`. |
| `Tally.TalliedSnocHit` | google-apps-script.js:93-98 | A pick whose lowered title is in Movies adds its count to the last row with that title, and to no other row. |
| `Tally.TalliedSnocMiss` | google-apps-script.js:94-95 | A pick whose title is in no row changes nothing. |
| `Tally.UnknownPickIgnored` | google-apps-script.js:93-99 | A pick matching no movie title, in any casing, changes no row. |
| `Tally.TalliedFrame` | google-apps-script.js:85-109 | A vote changes only the Votes column and keeps the number of rows. A row gains exactly the weight of its lowered title if it is the last row with that title, and nothing otherwise. Votes never decrease. |
| `Tally.LaterRowWins` | google-apps-script.js:86-88 | When two rows share a lowered title, the earlier row is left unchanged by any vote. |
| `Tally.VoteConservation` | google-apps-script.js:93-108 | The Votes column's total grows by exactly the counts of the picks that name some movie. |
| `Tally.ShapesAgree` | google-apps-script.js:91-108 | Object picks tally exactly like the legacy array holding their flattened list, which is the list the Votes log is written from. |
| `AppsScript.Store.AddVotes` | google-apps-script.js:90-109 | Given the title-to-row dictionary, the update loop leaves Movies as `Tally.Tallied` of the old table and the increments. |
| `AppsScript.Store.RecordVote` | google-apps-script.js:66-112 | Appends exactly one Votes row from the flattened picks. Movies becomes the tally of the old table, Suggestions is unchanged, and the answer is "OK". |
| `Catalog.SuggestionAddsAtMostOne` | google-apps-script.js:132-146 | A suggestion keeps every existing row and leaves its title present. It adds a row exactly when the title was new. That row is exactly `[last id + 1, title as typed, 0]` with both watch cells empty (`Blank`). |
| `Catalog.SuggestionIdempotent` | google-apps-script.js:135-139 | Suggesting the same title again, in any casing, adds no second row. |
| `Catalog.SuggestionKeepsTitlesUnique` | google-apps-script.js:135-146 | If no two rows share a lowered title before a suggestion, none do after it. |
| `Catalog.SuggestionKeepsIdsIncreasing` | google-apps-script.js:141 | The last-id-plus-one rule keeps strictly increasing ids increasing, so the new id is above every id in use. It gives 1 when only the header exists. |
| `Catalog.NewSuggestionListed` | google-apps-script.js:124-146 | Suggesting a never-seen title adds a last `getMovies` record: the next id, the title as typed, 0 votes, credited to the suggester at `now`, not watched. All earlier records stay unchanged. |
| `AppsScript.Store.RecordSuggestion` | google-apps-script.js:114-153 | Always appends `[now, name, suggestion]` to Suggestions. Movies becomes `WithSuggestion` of the old table, Votes is unchanged, and the answer is "OK". |
| `Catalog.MarkFirstMatchOnly` | google-apps-script.js:163-170 | Marking sets Watched Date to `now` and Marked By to the marker (an empty cell for an empty name) on the first case-insensitive match only, whatever those cells held before. Every other row and column is unchanged. With no match nothing changes. |
| `Catalog.MarkOverwrites` | google-apps-script.js:163-170 | Marking an already-marked movie again overwrites the earlier mark instead of rejecting it. |
| `AppsScript.Store.MarkMovieWatched` | google-apps-script.js:155-178 | Answers "OK" when some title matches case-insensitively, and "Error: Movie not found" otherwise (leaving Movies unchanged). Movies becomes `Marked` of the old table. The logs are unchanged. |
| `Catalog.UnmarkFirstMatchOnly` | google-apps-script.js:188-195 | Unmarking writes `""` to Watched Date and Marked By on the first match only, leaving both cells empty (`Blank`). Every other row and column is unchanged. |
| `Catalog.UnmarkAfterMark` | google-apps-script.js:188-198 | Marking then unmarking leaves the same table as unmarking alone. `getMovies` then reports that movie's watchedDate and markedBy as null, and every other record as before. |
| `AppsScript.Store.UnmarkMovieWatched` | google-apps-script.js:180-203 | Gives the same answers as marking. Movies becomes `Unmarked` of the old table, and the logs are unchanged. |
| `AppsScript.Store.DoGet` | google-apps-script.js:5-10 | "movies" and "leaderboard" both give the movie list as JSON. Any other action, or none, gives "No action specified". |
| `AppsScript.Store.DoPost` | google-apps-script.js:12-23 | Routes vote, suggestion, markWatched and unmarkWatched to their operations, with the same effects. Any other type gives "Invalid type" and changes no sheet. |

## Left out

- The spreadsheet, response, logging and JSON services are not modelled. In their place are the three `seq` fields and the `Response` datatype. Serialization and the JSON MIME type are not modelled either.
- The "sheet not found" answers of `recordSuggestion` (google-apps-script.js:121-123, 128-130) are left out: the model's sheets always exist.
- The catch-all `catch` paths (google-apps-script.js:20-22, 149-152, 174-177, 199-202) are left out: payloads here are well typed and every title cell is a string. Those paths answer "Error: ..." after an exception. The exceptions come from an unparsable body, a missing field, or `toLowerCase` on a non-string title cell, which the script itself can create (see the value-parsing line below).
- `Tally.PickEntry`: counts are natural numbers. `Array(count)` with a negative or fractional count throws inside `recordVote`, and that error path is not modelled.
- `Tally.Picks`: the entries of the object form are taken in the order given. JavaScript's rule that integer-like keys come first is not modelled, and neither is duplicate-key merging by the JSON parser.
- `AppsScript.SuggesterMap` and `AppsScript.TitleToRow` are true maps. In the script, both dictionaries are plain objects. So a lowered title that names an inherited property (such as "constructor") reads as present even when it was never stored. The model does not capture that.
- `Ascii.Lower`: non-ASCII case folding (`toLowerCase` on full Unicode) is not modelled.
- Timestamps are integers, not Date objects. The ID and Votes columns hold integers (`MovieRow.id`, `MovieRow.votes`), so string concatenation on a text or blank cell is not modelled: neither `cur + count` on a Votes cell (google-apps-script.js:96-97) nor `id + 1` on the last ID cell (google-apps-script.js:141), where `"7" + 1` gives `"71"`; `Catalog.NextId` always adds.
- Concurrent requests are not modelled. The read-modify-write of vote cells (google-apps-script.js:96-97) can lose updates under concurrency; the model is single-threaded.
- Cells keep strings exactly as written (`Sheets.Written`, `MovieRow.title`). The spreadsheet's own value parsing, which turns text that looks like a number, date, boolean or formula into that value, is not modelled. Two consequences go uncaptured. A marker named "0" is stored as the number 0, so `getMovies` reports its markedBy as null (google-apps-script.js:56), where `Catalog.Marked` keeps the truthy `Str("0")`. A suggested title such as "1917" is appended as a number cell (google-apps-script.js:142). Every later `toLowerCase` on the Title column then throws (google-apps-script.js:48, 87, 136, 164, 189), `getMovies` fails, and `recordVote` and `recordSuggestion` answer "Error: ..." after their log row is already written (google-apps-script.js:75, 124).
- The browser client in app.js is not part of this model: fetching, DOM building, alerts and its descending sort by votes. Its vote form sends `pick1..pick3` instead of `picks`, which this store does not read. Vote toggling, title casing, sort modes and leaderboard bucketing are client features and are not in google-apps-script.js, so they are not part of this model either.
