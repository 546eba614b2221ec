# Music-API track service: a Dafny model

This project models the core of the Music-API service, an echo/PostgreSQL
web service for a music catalogue, and proves properties of that model.
It covers:

- the track listing `GET /v1/tracks`: query-string defaults, pagination
  validation, the sort allow-list, the repository's SQL query, its metadata
  and its response rows;
- `PATCH`, `POST` and `DELETE` on tracks: the merge of an update patch, the
  record a creation stores, the repository's row operations and the error
  mapping;
- the JSON codec of a track duration (`"<n> seconds"`);
- the pagination and sort helpers and the "empty means default" readers of
  query parameters;
- the validation-error map of the users handler;
- the first-match search `nilaiPertama`.

The database is an in-memory value. `Tables` holds the tracks, artists and
likes tables in physical order. The listing query is a function of that
value:

- a LEFT JOIN per track, then the WHERE clause;
- the ORDER BY `<column> <dir>, t.id ASC`, realised by an insertion sort;
- LIMIT/OFFSET, and the `COUNT(*) OVER()` window count.

The rows GetAll reads are scanned by a loop, as in the source.

`TracksRepository.Database` is a class with `tracks`, `artists` and `likes`
fields. Insert, Update and Delete reassign only `tracks` and leave the other
two unchanged. Its ghost `Rows()` is the tracks table keyed by id. The
handlers that write (UpdateTracks, DeleteTracks, CreateTracks) are methods on
that database.

Modules and files:

| file | module | models |
|---|---|---|
| wrappers.dfy | Wrappers | Option and Result |
| gotext.dfy | GoText | the subset of Go's `strconv`/`strings` the code uses, over ASCII `seq<char>` |
| helper.dfy | Helper | utils/helper.go |
| duration.dfy | DurationCodec | utils/duration.go |
| dao.dfy | Dao | api/domain/dao/dao.go (records) |
| query_rows.dfy | QueryRows | grouped rows, ORDER BY comparison, sorting, LIMIT/OFFSET |
| tracks_repository.dfy | TracksRepository | api/repository/tracks_repository.go, plus ArtistRepository.GetByName |
| tracks_handler.dfy | TracksHandler | api/handler/tracks_handler.go |
| users_handler.dfy | UsersHandler | getValidationMessage and the errorMap loop of api/handler/users_handler.go |
| student_search.dfy | StudentSearch | nilaiPertama of json_test.go |

Behaviour of the code that the model keeps:

- An allow-list miss in `SortName` is a `panic("unsafe sort")`, not an error
  value. The service installs echo's Recover middleware
  (api/router/router.go:12), which answers a panic with status 500 and the
  generic body "Internal Server Error". In the model, `HttpError.message` of
  such an answer records the panic value ("unsafe sort", or the nil
  dereference of UpdateTracks); it is not the response body.
- A track without an artist survives the LEFT JOIN, but scanning its NULL
  `a.id`/`a.name` into non-nullable fields fails the whole GetAll. The
  handler then answers 409. The model's `ScanFailed` is that outcome.
- The Go code computes LastPage with `math.Ceil` on float64 values. The
  model uses exact integer ceiling division.
- UpdateTracks ignores the error of `ReadIdParam` (the `echo.NewHTTPError`
  built at tracks_handler.go:150 is never returned). It also ignores the
  error of `GetId`. An unparsable id therefore reads as track 0. A missing
  track leaves `trackGet` nil, and the nil dereference is a panic answered
  500 by Recover. The one exception is a patch naming an unknown artist:
  that 404 is returned before any dereference.
- `ReadIdParam` returns `(0, nil)` for the text "0".

## Model

| member | source | states |
|---|---|---|
| GoText.Wrap64 | utils/helper.go:28-30 | the result is the int64 congruent to the input modulo 2^64, and equals the input when it fits |
| GoText.FormatInt | utils/duration.go:13 | `%d` text is non-empty, starts with '-' exactly for negatives, and holds no space, quote or backslash |
| GoText.FormatThenParse | utils/helper.go:111 | ParseInt reads back every int64 that FormatInt writes |
| GoText.ParseInt | utils/helper.go:133 | a successful parse comes from non-empty text, and a negative value from text starting with '-' |
| GoText.TrimPrefix | utils/helper.go:62 | with the prefix present, prefix + result is the input; otherwise the input is unchanged |
| GoText.SplitLength | utils/helper.go:126 | strings.Split yields one more piece than there are separators |
| GoText.SplitPiecesFree | utils/duration.go:28 | no piece of a split contains the separator |
| GoText.SplitThenJoin | utils/helper.go:126 | joining the pieces with the separator restores the text |
| GoText.Split | utils/helper.go:126 | strings.Split always yields at least one piece (`[""]` for the empty text) |
| GoText.JoinThenSplit | api/handler/tracks_handler.go:303 | strings.Join and strings.Split are inverse on separator-free pieces |
| GoText.SplitTwo | utils/duration.go:28-31 | two separator-free parts joined by one separator split back into exactly those two parts |
| GoText.Quote | utils/duration.go:15 | the quoted text is the input between two double quotes |
| GoText.QuoteThenUnquote | utils/duration.go:15-23 | Unquote inverts Quote on plain text |
| GoText.Unquote | utils/duration.go:23 | a successful unquote comes from a literal at least two long that starts and ends with the same quote character |
| Helper.Paginatings.Limit | utils/helper.go:24-26 | LIMIT is the page size |
| Helper.Paginatings.Offset | utils/helper.go:28-30 | page 1 has offset 0; a valid page's offset is non-negative and at least the number of earlier pages |
| Helper.OffsetsConsecutive | utils/helper.go:24-30 | page p + 1 starts exactly one page size after page p: no overlap, no gap |
| Helper.OffsetAsWrittenAgrees | utils/helper.go:28-30 | the source's wrapping offset equals the exact one whenever the exact one fits an int64 |
| Helper.Paginatings.OffsetAsWritten | utils/helper.go:28-30 | the 64-bit offset is congruent to the exact (page - 1) * size modulo 2^64, and equals it when it fits |
| Helper.OffsetWrapsToFirstPage | utils/helper.go:28-51 | page 2^62+1 with size 4 passes Validate, yet its 64-bit offset is 0 (the first page); the page before has offset -4 |
| Helper.Paginatings.Validate | utils/helper.go:32-51 | nil exactly when page >= 1 and 1 <= page size <= 50; otherwise the message of the first failing check, in source order |
| Helper.Sortings.SortDirection | utils/helper.go:68-73 | "DESC" exactly when the key starts with '-', else "ASC" |
| Helper.SortColumnName | utils/helper.go:62 | the key with one leading '-' removed when present, else unchanged |
| Helper.SortName | utils/helper.go:59-66 | succeeds exactly when the key is in the allow-list and then returns the key without its '-'; otherwise the "unsafe sort" panic |
| Helper.ReadStrQuery | utils/helper.go:93-102 | the default for an empty parameter, else the parameter |
| Helper.ReadIntQuery | utils/helper.go:105-117 | the default for an empty or non-numeric parameter, else its int64 value |
| Helper.ReadIntQueryFormatted | utils/helper.go:105-117 | a decimal number is read back as itself, whatever the default |
| Helper.ReadCSVQuery | utils/helper.go:120-128 | the default for an empty parameter; else the comma pieces: one more than the commas, none containing a comma, joining back to the parameter |
| Helper.ReadIdParam | utils/helper.go:131-140 | the error flag is set exactly when the text does not parse, and the id is then 0; a non-zero id is the parsed value |
| DurationCodec.MarshalJSON | utils/duration.go:12-18 | the JSON form is the quoted `"<decimal> seconds"` |
| DurationCodec.ParseDuration | utils/duration.go:22-43 | an input that does not unquote is ErrInvalidDurationFormat |
| DurationCodec.AcceptedShape | utils/duration.go:22-43 | an accepted input unquotes to a space-free int64 numeral followed by " seconds", and the result is that numeral's value |
| DurationCodec.ShapeAccepted | utils/duration.go:22-43 | conversely, every such text is accepted with that value |
| DurationCodec.WrongShapeRejected | utils/duration.go:28-33 | a text that is not two space-separated parts ending in "seconds" is rejected |
| DurationCodec.MarshalThenParse | utils/duration.go:12-43 | unmarshalling the output of MarshalJSON restores every int64 duration |
| DurationCodec.Duration.UnmarshalJSON | utils/duration.go:22-43 | succeeds exactly when ParseDuration does and then stores its value; on any error returns ErrInvalidDurationFormat and leaves the receiver unchanged |
| QueryRows.CmpTextZero | api/repository/tracks_repository.go:134 | two titles compare equal exactly when they are equal |
| QueryRows.CmpTextTransitive | api/repository/tracks_repository.go:134 | text order is transitive |
| QueryRows.ColumnLaws | api/repository/tracks_repository.go:134 | the column comparison, in either direction, is antisymmetric, transitive and respects ties |
| QueryRows.CmpRowsTie | api/repository/tracks_repository.go:134 | rows that tie on `<column>, t.id` have the same track id |
| QueryRows.CmpRowsTransitive | api/repository/tracks_repository.go:134 | the full ORDER BY is transitive |
| QueryRows.SortRows | api/repository/tracks_repository.go:134 | the sorted rows are a permutation of the input |
| QueryRows.SortRowsSorted | api/repository/tracks_repository.go:134 | the sorted rows are in ORDER BY order |
| QueryRows.SortedUnique | api/repository/tracks_repository.go:133-134 | two sorted permutations of rows with distinct track ids are equal: the tiebreak makes the order total |
| QueryRows.PageOf | api/repository/tracks_repository.go:135 | LIMIT/OFFSET keeps min(limit, rows left after offset) rows, the k-th being row offset + k |
| QueryRows.PageSorted | api/repository/tracks_repository.go:134-135 | a window of a sorted listing is sorted |
| QueryRows.PagesArePrefix | api/repository/tracks_repository.go:135 | pages 1..k read in turn are exactly the first k*size rows |
| QueryRows.PagesCover | api/repository/tracks_repository.go:135 | enough pages cover the whole listing |
| TracksRepository.TrackIndex | api/repository/tracks_repository.go:93 | the first position of the id, or None exactly when no track has it |
| TracksRepository.ArtistById | api/repository/tracks_repository.go:128 | the joined artist has the id, or None exactly when no artist row has it |
| TracksRepository.ArtistByName | api/repository/artist_repository.go:22-33 | an artist with that name, or None (sql.ErrNoRows) exactly when none has it |
| TracksRepository.LikeCount | api/repository/tracks_repository.go:126-129 | at most the number of like rows, and 0 exactly when no like names the track |
| TracksRepository.JoinRows | api/repository/tracks_repository.go:127-129 | one grouped row per track, at the track's position |
| TracksRepository.PassesCases | api/repository/tracks_repository.go:130-132 | each WHERE condition is skipped for an empty parameter, so empty filters pass every row; a non-empty artist query rejects a track without an artist |
| TracksRepository.FilterRowsKeepsAll | api/repository/tracks_repository.go:130-132 | rows that all pass the WHERE clause are all kept, in order |
| TracksRepository.Matching | api/repository/tracks_repository.go:127-133 | at most one matching row per track, and with all filters empty every track's grouped row |
| TracksRepository.MatchingMembers | api/repository/tracks_repository.go:130-132 | the matching rows are exactly the grouped rows of table tracks that pass all three WHERE conditions |
| TracksRepository.MatchingOnePerTrack | api/repository/tracks_repository.go:133 | with id as primary key, the matching rows are distinct and one per track id |
| TracksRepository.ColumnOf | api/repository/tracks_repository.go:134 | "id", "title" and "year" name their columns, each exactly |
| TracksRepository.ResultSet | api/repository/tracks_repository.go:123-137 | the delivered rows are the ordered page, each carrying the number of all matching rows |
| TracksRepository.ListingOf | api/repository/tracks_repository.go:142-173 | three aligned slices read from the page's rows; total is the window count, or 0 for an empty page |
| TracksRepository.ListAll | api/repository/tracks_repository.go:122-175 | the unsafe-sort panic happens exactly for keys off the allow-list; a listing has three aligned slices of at most Limit() entries, and a total of 0 exactly when it is empty |
| TracksRepository.GetAll | api/repository/tracks_repository.go:122-175 | returns exactly ListAll's listing, or its error with all results empty and total 0 |
| TracksRepository.ScanRows | api/repository/tracks_repository.go:146-173 | fails exactly when some row has no artist, discarding everything; otherwise the slices are aligned with the rows and the total is the last row's count |
| TracksRepository.ListingIgnoresTableOrder | api/repository/tracks_repository.go:122-175 | two tables holding the same tracks, in any physical order, give the same listing |
| TracksRepository.ListAllRows | api/repository/tracks_repository.go:124-173 | each listed track is a table track passing the filter, listed with the artist its id names and with its own like count |
| TracksRepository.ListAllPage | api/repository/tracks_repository.go:122-175 | a successful listing is read from the Offset/Limit window of the sorted matching rows |
| TracksRepository.ListAllWindow | api/repository/tracks_repository.go:134-137 | the listing skips Offset() sorted matching rows and takes at most Limit() of them |
| TracksRepository.ListAllOrdered | api/repository/tracks_repository.go:134 | the listed tracks are in `<column> <dir>, t.id ASC` order |
| TracksRepository.ListAllTotal | api/repository/tracks_repository.go:124-173 | a non-empty page reports the number of matching tracks, whatever page and size were asked; an empty page reports 0 |
| TracksRepository.ListAllErrors | api/repository/tracks_repository.go:122-175 | the unsafe-sort panic happens exactly for keys off the allow-list; a valid request with a safe key either lists or fails only in the scan |
| TracksRepository.GetId | api/repository/tracks_repository.go:85-120 | a row exactly when the track exists and has an artist; the row is that track's grouped row |
| TracksRepository.IdMapIndex | api/repository/tracks_repository.go:46 | an id is a key of the table exactly when TrackIndex finds it, mapping to that track |
| TracksRepository.IdMapRemove | api/repository/tracks_repository.go:64-67 | removing a track's position removes exactly its id from the keyed table |
| TracksRepository.IdMapReplace | api/repository/tracks_repository.go:44-46 | overwriting a track's position overwrites exactly its id's entry |
| TracksRepository.IdMapAppend | api/repository/tracks_repository.go:31 | appending a fresh-id track adds exactly its entry |
| TracksRepository.Database.constructor | api/repository/tracks_repository.go:25-27 | the database holds the given tables |
| TracksRepository.Database.Insert | api/repository/tracks_repository.go:29-40 | the row is appended with the assigned id, time and version, which RETURNING writes back; nothing else changes |
| TracksRepository.Database.Update | api/repository/tracks_repository.go:42-61 | a missing id is "track doesnt exist" and changes nothing; otherwise exactly that id's entry becomes the record with the stored creation time and the version plus one, which RETURNING writes back |
| TracksRepository.Database.Delete | api/repository/tracks_repository.go:63-83 | the id's entry is removed; the error "track doesnt exist" comes exactly when there was none |
| TracksHandler.CeilDiv | api/handler/tracks_handler.go:292 | the smallest page count whose pages hold the total; 0 exactly for 0 |
| TracksHandler.MetadataOf | api/handler/tracks_handler.go:289-293 | first page 1, the request's page and size, the total, and as last page the smallest count of pages holding it |
| TracksHandler.ResponseRows | api/handler/tracks_handler.go:295-300 | row i pairs the i-th track, artist and like count |
| TracksHandler.ZipRows | api/handler/tracks_handler.go:295-300 | a new array of one row per track, row i pairing the i-th track, artist and like count |
| TracksHandler.GenreText | api/handler/tracks_handler.go:303 | the genres printed by `%s` are in brackets, and `[]` when there are none |
| TracksHandler.GenreTextShowsGenres | api/handler/tracks_handler.go:303 | space-free genres are read back by splitting the bracketed text on spaces |
| TracksHandler.ListMessage | api/handler/tracks_handler.go:302-303 | the message starts with the title and ends with the sort key |
| TracksHandler.ListTracks | api/handler/tracks_handler.go:244-308 | an error is a 400, 409 or 500; a failed pagination is the 400 with Validate's message; a listing holds at most a page size of rows, and reports a total of 0 exactly when it holds none |
| TracksHandler.GetAllTracks | api/handler/tracks_handler.go:244-308 | answers exactly as ListTracks: 400 on failed validation, 500 on an unsafe sort, 409 on another repository error, else message, metadata and rows |
| TracksHandler.DefaultRequest | api/handler/tracks_handler.go:263-280 | with no parameters, page 1 of size 5 sorted by id, unfiltered |
| TracksHandler.InvalidPaginationFirst | api/handler/tracks_handler.go:269-274 | a failing pagination is answered 400 with Validate's message, whatever the tables hold |
| TracksHandler.SortAllowList | api/handler/tracks_handler.go:276-286 | keys off the six-key allow-list are answered 500 "unsafe sort", and only those; safe keys list or are a 409 |
| TracksHandler.ListMetadata | api/handler/tracks_handler.go:283-293 | the metadata carries ListAll's total, the request's page and size, first page 1, and last page 0 exactly when the total is 0 |
| TracksHandler.ListData | api/handler/tracks_handler.go:295-305 | the data has one row per listed track, row i pairing the i-th track, artist and like count |
| TracksHandler.PagesCoverMatches | api/handler/tracks_handler.go:292 | pages 1..lastPage yield the sorted matching rows exactly, a permutation of all matches, and the page after the last is empty |
| TracksHandler.SevenTracksTwoPages | api/handler/tracks_handler.go:292 | 7 matches at page size 5 give two pages, of 5 and 2 rows |
| TracksHandler.Merge | api/handler/tracks_handler.go:170-188 | each present patch field overwrites, each absent one keeps; the artist id is the found artist's; id, creation time and version stay |
| TracksHandler.MergeEmpty | api/handler/tracks_handler.go:177-188 | an empty patch changes nothing |
| TracksHandler.MergeIdempotent | api/handler/tracks_handler.go:170-188 | applying a patch twice is applying it once |
| TracksHandler.MergeCompose | api/handler/tracks_handler.go:170-188 | two patches in turn are one merged patch, the later field winning |
| TracksHandler.UpdateErrorAsWritten | api/handler/tracks_handler.go:190-196 | 404 exactly for the text "trackGet doesnt exist", else 409 |
| TracksHandler.RepoErrorResponse | api/handler/tracks_handler.go:229-234 | 404 with "track doesnt exist" exactly for the repository's not-found text, every other error 409 "conflicting database" |
| TracksHandler.UpdateNotFoundIsConflict | api/handler/tracks_handler.go:190-196 | the repository's not-found is answered 409 as written and 404 by the corrected mapping; the two 404 conditions are disjoint |
| TracksHandler.UpdateStored | api/handler/tracks_handler.go:166-190 | a stored record exists only for a track GetId finds, and keeps its id and creation time with the version plus one |
| TracksHandler.UpdateAnswer | api/handler/tracks_handler.go:166-209 | an error is a 404 or a 500; a success echoes the stored record, whose id is the requested one |
| TracksHandler.UpdateCases | api/handler/tracks_handler.go:166-209 | an unknown artist name is a 404, a missing track a 500; otherwise only the patched fields change, id and creation time stay, the version goes up by one, and the answer echoes the named (or current) artist and the likes |
| TracksHandler.UpdateTracks | api/handler/tracks_handler.go:133-210 | the answer is UpdateAnswer on the id read from the path; when a record is stored, exactly that id's entry changes, and otherwise no track does |
| TracksHandler.UpdateById | api/handler/tracks_handler.go:166-209 | the same, once the id is read; a repository error would be mapped as written, by UpdateErrorAsWritten |
| TracksHandler.DeleteTracks | api/handler/tracks_handler.go:212-242 | an unparsable id is 400 and changes nothing; otherwise the id's entry is removed, with a success message when it existed and 404 "track doesnt exist" when not |
| TracksHandler.NewTrack | api/handler/tracks_handler.go:100-113 | the request's title, duration, year and genre with the found artist's id, every other field zero |
| TracksHandler.CreateTracks | api/handler/tracks_handler.go:81-131 | an unknown artist is 404 "artist not found!" and changes nothing; otherwise the record is appended with the assigned id, time and version, and the answer carries that id and time |
| UsersHandler.ValidationMessageCases | api/handler/users_handler.go:170-183 | each of the four known tags has its message, with the parameter for min and max; exactly the other tags get "is invalid" |
| UsersHandler.ValidationMessage | api/handler/users_handler.go:170-183 | every tag gets a non-empty message; "is invalid" is the message of exactly the tags the switch does not name |
| UsersHandler.FieldsAre | api/handler/users_handler.go:56-59 | the fields collected one error at a time are the set of all errors' fields |
| UsersHandler.ErrorMapStep | api/handler/users_handler.go:57-59 | one iteration extends the map of the first i errors to that of the first i + 1 |
| UsersHandler.BuildErrorMap | api/handler/users_handler.go:56-59 | one key per distinct field, holding the message of the last error about that field |
| StudentSearch.NilaiPertama | json_test.go:18-25 | -1 when no record below N matches; otherwise the grade of the first matching record |
| StudentSearch.FirstNilaiIgnoresTail | json_test.go:18-25 | records at or beyond N never affect the result |
| StudentSearch.NotFoundIff | json_test.go:18-25 | when no matching record has grade -1, the result is -1 exactly when nothing matches |
| StudentSearch.SentinelAmbiguity | json_test.go:21-24 | a matching record of grade -1 gives -1, the same as a miss |

## Left out

- JSON decoding of request bodies (`ReadJSON`, utils/helper.go:143-188) and the validator's struct tags: bodies arrive decoded and validated as `TrackPatch` and `TrackPost`, so the 400 and 406 paths for malformed bodies are not modelled.
- The errors the validator raises are the `FieldError` sequence given to `BuildErrorMap`; the rest of CreateUser and every other user, token, login, like and mail flow are outside this model.
- `Background` (utils/helper.go:75-90) runs a goroutine with a WaitGroup; concurrency is not modelled, and neither is the handlers' global mutex.
- GetTracksByID, LikeTracks and the artist and likes repositories, apart from ArtistRepository.GetByName.
- PostgreSQL's full-text match `to_tsvector('simple', ..) @@ plainto_tsquery('simple', ..)` is the uninterpreted parameter `textMatch`.
- The clock and the id sequence are the parameters `now` and `newId`, and the column default version is `initialVersion`.
- Connection, context cancellation and driver failures of Insert, Update, Delete and GetId are not modelled; `GetId` returns None for both "no row" and a NULL artist.
- Text comparison in ORDER BY is by character code, not by a database collation.
- `strconv.Quote` is modelled on plain ASCII text only (no escapes, no non-ASCII runes); JSON text is one character per byte.
- GoText.Unquote: returns the error result for every double- or single-quoted literal containing a backslash, because escape sequences are not decoded; Go's `strconv.Unquote` decodes them.
- DurationCodec.ParseDuration: so rejects escaped JSON strings the source accepts, such as `"\u0031 seconds"` or `"5\u0020seconds"`, which Go unquotes to "1 seconds" and "5 seconds" and stores as 1 and 5.
- DurationCodec.Duration.UnmarshalJSON: inherits that rejection; for such an input it returns ErrInvalidDurationFormat and leaves the receiver unchanged, where the source stores the number.
- Sorting by `created_at`, `duration` or other columns is not modelled because the allow-list holds only id, title and year.
- TracksRepository.ColumnOf: covers only the columns id, title and year; any other safe name would be a rejected query (QueryFailed).
- TracksHandler.CeilDiv: exact integer ceiling instead of `math.Ceil` over float64; the two differ only for totals beyond 2^53.
- StudentSearch.NotFoundIff: requires that no matching record has grade -1, because as written -1 is also a valid grade (see SentinelAmbiguity).
- TracksHandler.CreateTracks: requires a fresh id, so the 409 for a failing Insert is not reachable in the model.
- Dao records use unbounded integers for ids, years and versions; int64 overflow is modelled only in the offset computation (Helper.Paginatings.OffsetAsWritten), and the listing uses the corrected exact offset.
- TracksRepository.GetAll: sends the exact offset `Helper.Paginatings.Offset()`, not the 64-bit one. The two agree whenever (page - 1) * size fits an int64 (Helper.OffsetAsWrittenAgrees). Beyond that the source's wrapped OFFSET is either non-negative or negative. When it is non-negative, the source returns that window; page 2^62+1 of size 4 gets the first page. When it is negative, PostgreSQL rejects the query and the source returns an error. In both cases the model returns the empty listing of an offset past the end. The same holds for TracksRepository.ListAll and for the lemmas about it.
- TracksHandler.GetAllTracks: inherits this. For (page - 1) * size of at least 2^63, the model answers an empty 200. The source answers the wrapped page, or a 409 when the wrapped offset is negative. The same holds for TracksHandler.ListTracks.
- The Go panics are answered as echo's Recover middleware answers them (HTTP 500); the panic's stack trace and logging are not modelled.

## Findings

| source | as written | input that shows it | evidently intended | confidence | as-written member | corrected member |
|---|---|---|---|---|---|---|
| utils/helper.go:28-30 | the offset `(page - 1) * pageSize` is computed in 64-bit `int` and wraps around | page 2^62+1 with page size 4 passes Validate, but its offset wraps to 0, so the first page is returned | the exact offset; page p + 1 starts one page size after page p | not executed | Helper.OffsetWrapsToFirstPage | Helper.OffsetsConsecutive |
| api/handler/tracks_handler.go:192 | UpdateTracks compares the repository error with "trackGet doesnt exist", but Update returns "track doesnt exist" (tracks_repository.go:54) | a track row deleted by another database client between GetId (line 167) and Update (line 190); the handler's mutex is per process. Update then returns "track doesnt exist", which is answered 409 "conflicting database" | 404 with "track doesnt exist", as DeleteTracks does | not executed | TracksHandler.UpdateNotFoundIsConflict | TracksHandler.RepoErrorResponse |
