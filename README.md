# event_manage in Dafny

A model of the core of event_manage, a small Sinatra application. It imports event records
from a CSV export into a Groonga hash table, searches them by keyword and period, and counts
keywords per month. It also ranks the groups that hold events and pages through the results
by votes. There are two revisions of the `Events` class:

- `EventManage::Events` (lib/event_manage/events.rb) reads rows by header name.
- The older `OperationManage::Events` (lib/operation_manage/events.rb) reads lines through a
  column index built from the header line.

The web handlers in `app.rb` use the older revision.

The model is organised as follows:

- `Store` is the table. It is a finite map from event ID to the attributes plus the vote
  counter `good`. `add` keeps the first record of an ID.
- `Ingest` is the import loop. Each row is normalized, then added. The loop stops at the
  first row that raises.
- `GroupScan` is the fallback group name. It models `scan(/^(.*?(M))/).flatten.shift`
  character by character.
- `Query` holds `select_period`, `select_word`, `search_word` and the per-month tally of
  `count_word_period`.
- `Ranking` holds `get_top_*` (top groups by count) and `paginate` (votes, then date).
- `EventManage` and `OperationManage` are the two `Events` classes. Each holds its table as
  a field that its methods update.
- `GroongaDatabase` is the open/close life cycle of the database handle.
- `App` holds the `/search`, `/stats` and `/good` handlers and their keyword, period and page
  arithmetic.
- `OperationHelper`, `EventHelper` and `ClassExpansion` are the helper modules and the
  `blank?`/`truncate` extensions.
- `RubyCore` holds the Ruby behaviour the code relies on: `to_s` and `to_i`, inclusive and
  exclusive slices.

Groonga's engine is not modelled. A keyword matches a column when it occurs in it as a
substring. The table is a map, so record order is only what `paginate` sorts by.

`Time.parse` is a parameter `parse: string -> Option<int>`, giving seconds, or `None` where
Ruby raises. `Time.now` is a parameter `now`. The escaping function handed to `/good` is a
parameter. `SEARCH_WORD` is a parameter of `/stats`, because config/config.rb does not define
it.

## Model

| member | source | states |
|---|---|---|
| Store.Add | lib/event_manage/events.rb:41 | `add` on a hash table: the new ID is stored with `good` 0; existing records are untouched |
| Store.AddSize | lib/event_manage/events.rb:41 | a new ID adds one record, a known one adds none |
| Store.AddAll | lib/event_manage/events.rb:23-42 | adding entries in order: the keys are the old keys plus the entry IDs; old records are untouched; new ones start with no votes |
| Store.AddAllFirstWins | lib/operation_manage/events.rb:30-50 | among entries sharing an ID new to the table, the first one is stored |
| Store.AddAllPresent | lib/operation_manage/events.rb:49 | entries whose IDs are all present leave the table unchanged |
| Store.AddAllAgain | lib/operation_manage/events.rb:16-51 | importing the same entries twice gives the table of importing them once |
| Store.AddAllSize | lib/operation_manage/events.rb:16-51 | the table grows by the number of distinct new IDs |
| Store.Bump | lib/event_manage/events.rb:105-111 | `@events[key][:good] += delta`: only that record's counter changes, by exactly `delta` |
| Store.BumpUndo | lib/event_manage/events.rb:105-111 | a down-vote after an up-vote restores the table |
| Store.BumpAdds | lib/event_manage/events.rb:105-111 | successive votes on a record add up |
| Ingest.ResolveGroup | lib/event_manage/events.rb:25-26 | a valid group is kept; otherwise the scan of the text is stored, and a `nil` text raises |
| Ingest.ResolvedGroupNeverNull | lib/operation_manage/events.rb:33-36 | the stored group is never "Null" |
| Ingest.NormalizeAll | lib/event_manage/events.rb:23-42 | rows are normalized in order; the batch holds every row's entry up to the first error, which is reported with its row number |
| Ingest.NormalizeAllStops | lib/event_manage/events.rb:23-42 | rows after the first failing one change nothing |
| Ingest.NormalizeAllAlike | lib/operation_manage/events.rb:30-50 | two row lists that normalize alike row by row give the same batch |
| Ingest.ImportRows | lib/event_manage/events.rb:23-42 | the loop leaves the table equal to `AddAll` of the normalized entries, and reports the first failure |
| GroupScan.InvalidGroups | lib/event_manage/events.rb:197-201 | a group is invalid exactly when it is `nil` or "Null" |
| GroupScan.LazyMatch | lib/event_manage/events.rb:204 | the lazy `.*?M` stops at the first marker on the line, or fails when none is on it |
| GroupScan.ScanFindsFirstMarker | lib/event_manage/events.rb:203-205 | the scan is `nil` without a marker; otherwise it runs from the start of that line through the first marker |
| GroupScan.ScanNilExactlyWithoutMarker | lib/operation_manage/events.rb:216-218 | the scan is `nil` if and only if the text lacks the marker |
| GroupScan.ScanResult | lib/operation_manage/events.rb:216-218 | a result ends with the marker and holds no newline and no earlier marker |
| GroupScan.ScannedNameIsValid | lib/operation_manage/events.rb:210-218 | a scanned name is never "Null" |
| GroupScan.Scan | lib/event_manage/events.rb:203-205 | a scan that finds something gives a name ending with the marker |
| GroupScan.TeamExample | spec/lib/events_spec.rb:240-242 | of two teams named in a summary, the first is found |
| Query.AnyWordExists | lib/event_manage/events.rb:173-176 | the `inject` with `\|` holds if and only if some word matches |
| Query.AllWordsForall | lib/event_manage/events.rb:177-178 | the `map` of conditions holds if and only if every word matches |
| Query.Keeps | lib/event_manage/events.rb:170-182 | `:or` keeps a record if and only if some word matches, `:and` if and only if all do; any other operator keeps none |
| Query.SelectPeriod | lib/event_manage/events.rb:154-165 | exactly the records dated in `[start, end)`, unchanged |
| Query.SelectWord | lib/operation_manage/events.rb:180-201 | exactly the records the operator keeps, unchanged; an unknown operator gives an empty result |
| Query.SearchWord | lib/operation_manage/events.rb:53-64 | a record is found exactly when the operator (`:or` by default) keeps it and, when a bound is given, it lies in the period, whose missing start is 2000-01-01 and missing end is now |
| Query.StartOnlySearch | lib/event_manage/events.rb:47-50 | with only a start, nothing before it and nothing at or after now is found |
| Query.AbsentWordFindsNothing | spec/lib/events_spec.rb:113-117 | a word found in no target column finds nothing |
| Query.PresentWordFindsRecord | spec/lib/events_spec.rb:89-111 | a word found in a target column of a record finds it |
| Query.ListCountMeaning | lib/event_manage/events.rb:65 | a list's count is the number of records in which any of its words occurs |
| Query.Tally | lib/event_manage/events.rb:63-67 | the hash has at most one key per list |
| Query.TallyHasEveryList | lib/event_manage/events.rb:64-66 | every list's first word is a key of the hash |
| Query.TallyLastWins | lib/event_manage/events.rb:64-66 | under each key is the count of the last list with that first word |
| Query.TallyMeaning | lib/operation_manage/events.rb:71-75 | one key per list, its first word; the value is the count of the last list with that first word |
| Query.CountLists | lib/operation_manage/events.rb:71-75 | the loop builds exactly that tally |
| Ranking.Group | lib/event_manage/events.rb:72-75 | `group`: one entry per value of the column, counting the records that hold it |
| Ranking.SortByCount | lib/event_manage/events.rb:78-79 | every pair of the hash, once each, by count descending |
| Ranking.SliceOfSortedIsTop | lib/event_manage/events.rb:79 | the first `limit` pairs of that order are a top list |
| Ranking.TopGroups | lib/operation_manage/events.rb:78-100 | the result is a top list of the eligible groups: each group once with its true count, as many as `slice(0...limit)` keeps (a negative limit counts from the end), largest first, no omitted group larger than a listed one |
| Ranking.TopGroupsAreReal | lib/event_manage/events.rb:77 | listed counts are real member counts, and `nil` is absent after `delete(nil)` |
| Ranking.TopOneExample | spec/lib/events_spec.rb:152-157 | counts {A: 3, B: 2, C: 1} cut to one give [A, 3] |
| Ranking.BeforeTransitive | lib/event_manage/events.rb:96-98 | the paginate order is transitive |
| Ranking.BeforeTotal | lib/event_manage/events.rb:96-98 | the paginate order ranks any two distinct records |
| Ranking.Rank | lib/event_manage/events.rb:96-101 | every record once, in votes-then-date order |
| Ranking.RankingUnique | lib/event_manage/events.rb:96-101 | there is one such ranking only |
| Ranking.RankingTail | lib/event_manage/events.rb:96-101 | a ranking without its head ranks the rest |
| Ranking.PageOf | lib/event_manage/events.rb:99-100 | page `p` holds ranks `(p-1)*20` up to `p*20`, empty past the end |
| Ranking.Paginate | lib/operation_manage/events.rb:102-111 | a missing page is 1; a page below 1 gives no result; otherwise the page of the ranking |
| EventManage.TargetsMatch | lib/event_manage/events.rb:190-195 | a word matches if and only if it occurs in the title, venue, summary or note |
| EventManage.NormalizeRow | lib/event_manage/events.rb:25-41 | the ID and every column come from the row; the time is the parsed 開催日時; the group is resolved; it fails exactly on a `nil` title behind an invalid group, a missing or unparsable time, or a missing ID |
| EventManage.StoredCommunityIsValid | lib/event_manage/events.rb:25-26 | a stored community is never "Null" |
| Query.MonthStartText | lib/event_manage/events.rb:59 | the text parsed is the year, then the month, each `nil` as empty, then "01" |
| EventManage.MonthCountsMeaning | lib/event_manage/events.rb:58-68 | each list's first word maps to the number of records of the 31-day window matching one of its words |
| EventManage.MatchingInMonth | lib/event_manage/events.rb:61-65 | the records counted are those of the window with a word in a target column |
| EventManage.CountMonth | lib/event_manage/events.rb:62-67 | the loop computes that tally |
| EventManage.Events.constructor | lib/event_manage/events.rb:11-14 | the table holds what was stored before |
| EventManage.Events.ImportCsv | lib/event_manage/events.rb:16-43 | the table becomes the old table plus the normalized rows up to the first bad one, and the failure is reported |
| EventManage.Events.SearchWord | lib/event_manage/events.rb:45-56 | a sub-table; it is the generic search over the title, venue, summary and note, so a given bound selects the period (missing start 2000-01-01, missing end now) and an unknown operator keeps nothing; without a period, `:or` keeps records with some word in a target column, `:and` those with all words |
| EventManage.Events.CountWordPeriod | lib/event_manage/events.rb:58-68 | an unparsable start gives no result; otherwise the tally of the 31 days from the start |
| EventManage.Events.GetTopCommunity | lib/event_manage/events.rb:70-81 | the top communities by count, without `nil` |
| EventManage.Events.GetTopOrganizer | lib/event_manage/events.rb:83-92 | the top organizers by count, `nil` included |
| EventManage.Events.Paginate | lib/event_manage/events.rb:94-103 | the requested page of the votes-then-date ranking |
| EventManage.Events.UpGoodCount | lib/event_manage/events.rb:105-107 | one more vote on the record, and the new score; an unknown key changes nothing |
| EventManage.Events.DownGoodCount | lib/event_manage/events.rb:109-111 | one vote less, with no lower bound; an unknown key changes nothing |
| EventManage.Events.Size | lib/event_manage/events.rb:121-123 | the number of records |
| EventManage.ImportTwice | spec/lib/events_spec.rb:39-44 | importing a file again adds no record |
| EventManage.NewIdStoredUnvoted | spec/lib/events_spec.rb:53-63 | a row with a new ID is stored with its attributes and 0 votes |
| EventManage.VotesCancel | spec/lib/events_spec.rb:184-210 | up then down restores the score; two up-votes add two |
| OperationManage.IndexFrom | lib/operation_manage/events.rb:19-29 | `index`: the first column with that name, or `nil` when there is none |
| OperationManage.CellIsByName | lib/operation_manage/events.rb:31-46 | `col[column_index[name]]` raises for a missing header and reads the cell under that name otherwise |
| OperationManage.MissingColumnRaises | lib/operation_manage/events.rb:31 | a header lacking a column name makes every line raise |
| OperationManage.CellsByName | lib/operation_manage/events.rb:31-46 | with every name present, the nine reads are the cells under those names |
| OperationManage.NormalizeReadable | lib/operation_manage/events.rb:31-49 | a readable line fails exactly on a `nil` summary behind an invalid team, a missing or unparsable time, or a missing ID; otherwise it stores the cells |
| OperationManage.NormalizeCells | lib/operation_manage/events.rb:31-49 | a key that cannot be read raises first; a stored line has a key, a parsed date and its other cells as read |
| OperationManage.NormalizeLine | lib/operation_manage/events.rb:19-49 | a header without "ID" raises; a stored line had every column in the header and a key cell on the line |
| OperationManage.SameCellsImportAlike | lib/operation_manage/events.rb:19-49 | lines with the same cells under the same names normalize alike |
| OperationManage.PermutedColumnsImportAlike | spec/lib/events_spec.rb:65-75 | a file with its columns reordered imports the same records |
| OperationManage.TargetsMatch | lib/operation_manage/events.rb:203-208 | a word matches if and only if it occurs in the summary, progress, result or note |
| OperationManage.MonthCountsMeaning | lib/operation_manage/events.rb:66-76 | each list's first word maps to the number of records of the window matching one of its words |
| OperationManage.MatchingInMonth | lib/operation_manage/events.rb:69-73 | the records counted are those of the window with a word in a target column |
| OperationManage.CountMonth | lib/operation_manage/events.rb:70-75 | the loop computes that tally |
| OperationManage.Events.constructor | lib/operation_manage/events.rb:11-14 | the table holds what was stored before |
| OperationManage.Events.ImportCsv | lib/operation_manage/events.rb:16-51 | an empty file raises and changes nothing; otherwise the lines after the header are normalized through its column index and added up to the first bad one |
| OperationManage.Events.SearchWord | lib/operation_manage/events.rb:53-64 | a sub-table; it is the generic search over the summary, progress, result and note, so a given bound selects the period (missing start 2000-01-01, missing end now) and an unknown operator keeps nothing; without a period, `:or` keeps records with some word in a target column, `:and` those with all words |
| OperationManage.Events.CountWordPeriod | lib/operation_manage/events.rb:66-76 | an unparsable start gives no result; otherwise the tally of the 31 days from the start |
| OperationManage.Events.GetTopTeam | lib/operation_manage/events.rb:78-89 | the top teams by count, without `nil` |
| OperationManage.Events.GetTopHostPerson | lib/operation_manage/events.rb:91-100 | the top host persons by count, `nil` included |
| OperationManage.Events.Paginate | lib/operation_manage/events.rb:102-111 | the requested page of the votes-then-date ranking |
| OperationManage.Events.UpGoodCount | lib/operation_manage/events.rb:113-115 | one more vote, and the new score; an unknown key changes nothing |
| OperationManage.Events.DownGoodCount | lib/operation_manage/events.rb:117-119 | one vote less; an unknown key changes nothing |
| OperationManage.StoredTeamIsValid | lib/operation_manage/events.rb:33-36 | a stored team is never "Null" |
| OperationManage.TopTeamExample | spec/lib/events_spec.rb:152-157 | `get_top_team(records, 1)` on counts {A: 3, B: 2, C: 1} is [A, 3] |
| GroongaDatabase.GroongaDatabase.constructor | lib/event_manage/groonga_database.rb:7-9 | a new handle is closed |
| GroongaDatabase.GroongaDatabase.Open | lib/event_manage/groonga_database.rb:11-39 | answers `false` and changes nothing when already open; otherwise creates a missing file, opens it, and with a block runs the block once and closes again, returning its value or its exception |
| GroongaDatabase.GroongaDatabase.Close | lib/event_manage/groonga_database.rb:41-46 | the handle is closed afterwards, even when it was closed already |
| GroongaDatabase.LifeCycle | spec/lib/groonga_database_spec.rb:1-111 | open, a refused second open, close and a block open leave the database closed after one block run |
| App.WidenSpacesChars | app.rb:67 | `gsub(/　/, ' ')` keeps the length and replaces exactly the full-width spaces |
| App.SplitFromWords | app.rb:67 | the words of `split` are non-empty, hold no white space, and spell the text without its white space |
| App.Keywords | app.rb:67 | every keyword is a non-empty word without white space, and together they spell the query without its spaces |
| App.KeywordsAreWords | app.rb:67 | no keyword is empty or holds an ASCII or full-width space, and together they spell the query without spaces |
| App.CurrentPage | app.rb:81-82 | the page is at least 1; a positive `to_i` is kept, anything else becomes 1 |
| App.LastPage | app.rb:83 | 0 for no results, else the least page count whose pages of 20 hold them all |
| App.LastPageIsLastFull | app.rb:83-84 | a page holds results if and only if it lies between 1 and the last page |
| App.EveryRecordOnAPage | app.rb:83-84 | every ranked record is shown on a page no later than the last |
| App.SearchBounds | app.rb:68-76 | blank bounds give none; an unparsable date gives the notice; the end bound is one day after the parsed end |
| App.EndDayIncluded | app.rb:70-71 | records dated on the end day fall inside the period |
| App.Assoc | app.rb:44 | the first synonym list that starts with `q`, or `nil` when none does |
| App.ShowRecords | app.rb:78-84 | the page values: result size, current page, last page, and the page of the ranking |
| App.Search | app.rb:61-90 | a missing `q` redirects; a bad date redirects with the notice; otherwise an `:and` search of the keywords within the bounds, paged |
| App.MonthStart | app.rb:45-47 | a valid year and month parse as `ym[0, 4]`, `ym[5, 2]` and "01"; a valid year with a rejected month parses as `ym[0, 4]` and "01"; a rejected year interpolates as nothing |
| App.MonthRecords | app.rb:47-49 | a sub-table holding exactly the records of the 31 days from the start with one of the synonyms in a target column |
| App.Stats | app.rb:40-59 | a missing `q` or `ym` redirects; a `q` that `SEARCH_WORD` does not list raises, as `paginate` on the rescued empty array does; an unparsable month raises; otherwise the result size, the page numbers, and the page of the votes-then-date ranking of the month's records |
| App.StatsSearchesTheMonth | app.rb:47-49 | the search `/stats` makes finds exactly the records of the window that hold one of the synonyms |
| App.Good | app.rb:92-95 | a given known key gets one more vote and the user is sent back to the search; an unknown key raises; no key changes nothing |
| OperationHelper.ToYear | lib/operation_manage/application_helper.rb:16-20 | a year is given if and only if `to_i` of `ym[0, 4]` is in 2000..3000, and it is those four characters, all digits |
| OperationHelper.ToMonth | lib/operation_manage/application_helper.rb:22-26 | a month is given if and only if `ym[5, 2]` exists and its `to_i` is in 1..12, and it is that slice |
| OperationHelper.YearExample | lib/operation_manage/application_helper.rb:16-20 | "2012-01" gives the year "2012" |
| OperationHelper.MonthExample | lib/operation_manage/application_helper.rb:22-26 | "2012-01" gives the month "01" |
| OperationHelper.HtmlSlice | lib/operation_manage/application_helper.rb:59-63 | up to 100 characters are kept; a longer string becomes its first 100 and " ..." |
| OperationHelper.HtmlSliceIdempotent | lib/operation_manage/application_helper.rb:59-63 | slicing twice is slicing once |
| OperationHelper.QueryParams | lib/operation_manage/application_helper.rb:55-57 | without `&` in the values, splitting the query on `&` gives back the three pairs, `nil` as empty |
| EventHelper.Truncate | lib/event_manage/application_helper.rb:38-46 | a text within the limit (100 by default) is kept; a longer one becomes a prefix of it followed by the omission ("..." by default) |
| EventHelper.TruncateDefaults | lib/event_manage/application_helper.rb:38-46 | with no options, up to 100 characters are kept and a longer text becomes 98 characters and "..." |
| EventHelper.SummaryText | lib/event_manage/application_helper.rb:16-19 | a `nil` summary gives the empty string; others are truncated to at most 101 characters |
| ClassExpansion.Blank | lib/class_expansion.rb:1-12 | blank exactly for `nil` and the empty string |
| ClassExpansion.OnlySizeMatters | lib/event_manage/class_expansion.rb:7-11 | white space is not blank |
| ClassExpansion.TruncateText | lib/event_manage/class_expansion.rb:13-22 | a longer text keeps `limit - omission.size + 1` characters, as the inclusive range gives, then the omission |
| ClassExpansion.TruncateTextIdempotent | lib/event_manage/class_expansion.rb:13-22 | truncating twice is truncating once when the limit fits the omission |
| ClassExpansion.StringTruncate | lib/event_manage/class_expansion.rb:13-22 | a string within the limit (30 by default) is kept; a longer one becomes a prefix of it followed by the omission ("..." by default) |
| ClassExpansion.StringTruncateDefaults | lib/event_manage/class_expansion.rb:13-22 | with no options, up to 30 characters are kept and a longer string becomes 28 characters and "..." |
| RubyCore.ToI | lib/operation_manage/application_helper.rb:18 | `to_i` is negative only with a minus sign, and 0 for a string starting with anything but white space, a sign or a digit |
| RubyCore.DecimalPrefixExample | lib/operation_manage/application_helper.rb:18 | a `0d` prefix before the digits is skipped: `"0d3".to_i` is 3 |
| RubyCore.SignedPrefixExample | lib/operation_manage/application_helper.rb:18 | the prefix follows the sign: `"-0D12".to_i` is -12 |
| RubyCore.FourDigitsNeeded | lib/operation_manage/application_helper.rb:18 | a string of at most four characters whose `to_i` is at least 1000 is four digits |

## Left out

- The Groonga engine is not modelled: tokenizing, `key_normalize` and the index. A keyword matches a column when it is a substring of it.
- `define_schema`, `open_db`, `close_db` and the `Groonga::Context` and `GC` handling are not modelled. The table a new `Events` sees is a constructor parameter.
- Reading and transcoding the CSV file are not modelled. `open_csv` and the `headers: true` reader are represented by the rows they yield. `load_csv` and its file deletion are not modelled.
- `Time.parse` and `Time.now` are parameters. `Time.parse("2000/01/01")` is the constant 946684800, which assumes UTC; other time zones are not modelled.
- HTML and URI escaping, `set_match_tag`, `title_escape`, `description_escape`, `array_escape`, `escape_uri` and `escape_query_params` are not modelled. They would need Rack and URI.
- Sinatra, the session `flash`, the templates and the `/` and `/list` routes are not modelled.
- App.Search: models the handler without its calls to `get_top_department` and `get_top_supporter`. The older `Events` does not define those methods, so as written the handler raises right after the search.
- App.Stats: leaves out the same two calls as App.Search. They would raise before the page is built.
- `delete`, `truncate`, `get_all_records` and `[]` on `Events` pass straight through to the table and are not modelled.
- Ranking.Rank: records with equal votes and equal dates are ordered by ID. The engine's own order for such ties is not modelled.
- Ranking.TopGroups: states the top-list property rather than one order for groups with equal counts. The order of `sort_by` among such groups is not specified by Ruby.
- Ranking.Paginate: a page past the last gives an empty page. rroonga's `TooLargePage` error is not modelled.
- Query.SelectWord: `:and` over an empty keyword list keeps every record. This is an assumption about the engine.
- Query.SelectWord: `:or` over an empty keyword list keeps nothing, because the `inject` starts from `record`, which is taken to select no record. This is an assumption about the engine.
- Query.SelectPeriod: the `rescue` in `select_period` is not modelled. Dates here are integers and never fail to compare.
- Store.Add: a row with a `nil` ID is an import error. rroonga's behaviour for a `nil` key is not modelled.
- Store.Add: keeping an existing record untouched when its ID is added again is an assumption about the engine's `Table#add`, which lies outside this code.
- String `to_i` is modelled in base 10 only, with its optional `0d` prefix and single underscores between digits. That is the only base the application uses.
- `split` treats space, tab, newline, vertical tab, form feed and carriage return as white space. The NUL character is not treated as a separator.
- Ingest.ImportRows: an import stops at the first row that raises, because `import_csv` has no `rescue`. The rows before it stay stored. Skipping bad rows and carrying on is not what the code does.
