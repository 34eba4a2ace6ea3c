/** `OperationManage::Events`, the older revision: operation records read from a CSV file
    whose first line names the columns, searched by keyword over summary, progress, result
    and note, and ranked by team and host person. The Groonga table is the field `events`;
    `Time.parse` is the parameter `parse`, which gives `None` where Ruby raises, and
    `Time.now` the parameter `now`. */
module OperationManage {
  import opened Wrappers
  import opened RubyCore
  import opened Store
  import opened GroupScan
  import opened Ingest
  import opened Query
  import opened Ranking

  /** The columns of the `Events` table besides `good`; `nil` columns are `None`. */
  datatype Attributes = Attributes(
    datetime: int,
    summary: Option<string>,
    code: Option<string>,
    hostPerson: Option<string>,
    team: Option<string>,
    progress: Option<string>,
    result: Option<string>,
    note: Option<string>)

  /** A line of `CSV#to_a`: the cells in file order, `nil` for an empty one. */
  type CsvLine = seq<Option<string>>

  /** `csv_head.index(name)` from position `k` on: the first column so named. */
  function IndexFrom(head: CsvLine, name: string, k: nat): (i: Option<nat>)
    requires k <= |head|
    ensures i.Some? ==> k <= i.value < |head| && head[i.value] == Some(name)
    ensures i.Some? ==> forall j :: k <= j < i.value ==> head[j] != Some(name)
    ensures i.None? ==> forall j :: k <= j < |head| ==> head[j] != Some(name)
    decreases |head| - k
  {
    if k == |head| then None
    else if head[k] == Some(name) then Some(k)
    else IndexFrom(head, name, k + 1)
  }

  function IndexOf(head: CsvLine, name: string): Option<nat> {
    IndexFrom(head, name, 0)
  }

  /** The `column_index` hash: where each field is read, `nil` for a name the header lacks. */
  datatype ColumnIndex = ColumnIndex(
    key: Option<nat>, datetime: Option<nat>, summary: Option<nat>, code: Option<nat>,
    hostPerson: Option<nat>, team: Option<nat>, progress: Option<nat>, result: Option<nat>,
    note: Option<nat>)

  function ColumnIndexOf(head: CsvLine): ColumnIndex {
    ColumnIndex(
      IndexOf(head, "ID"), IndexOf(head, "日時"), IndexOf(head, "イベント名"), IndexOf(head, "イベントコード"),
      IndexOf(head, "開催者"), IndexOf(head, "チーム名"), IndexOf(head, "途中経過"), IndexOf(head, "結果"),
      IndexOf(head, "備考"))
  }

  /** `col[index]`: `nil` as an index raises, and an index past the end of the line gives
      `nil`. */
  function Cell(col: CsvLine, index: Option<nat>, name: string): Result<Option<string>, RowError> {
    if index.None? then Err(NoSuchColumn(name))
    else if index.value < |col| then Ok(col[index.value])
    else Ok(None)
  }

  /** What a line holds under the header `name`: `nil` for a name the header lacks and for a
      cell past the end of the line. */
  function ByName(head: CsvLine, col: CsvLine, name: string): Option<string> {
    var i := IndexOf(head, name);
    if i.Some? && i.value < |col| then col[i.value] else None
  }

  /** The header names every column `import_csv` reads. */
  predicate HasAllColumns(head: CsvLine) {
    IndexOf(head, "ID").Some? && IndexOf(head, "チーム名").Some? && IndexOf(head, "イベント名").Some? &&
    IndexOf(head, "日時").Some? && IndexOf(head, "イベントコード").Some? && IndexOf(head, "開催者").Some? &&
    IndexOf(head, "途中経過").Some? && IndexOf(head, "結果").Some? && IndexOf(head, "備考").Some?
  }

  /** The nine reads `col[column_index[...]]` of one line. */
  datatype Cells = Cells(
    key: Result<Option<string>, RowError>, team: Result<Option<string>, RowError>,
    summary: Result<Option<string>, RowError>, datetime: Result<Option<string>, RowError>,
    code: Result<Option<string>, RowError>, hostPerson: Result<Option<string>, RowError>,
    progress: Result<Option<string>, RowError>, result: Result<Option<string>, RowError>,
    note: Result<Option<string>, RowError>)

  function CellsOf(idx: ColumnIndex, col: CsvLine): Cells {
    Cells(
      Cell(col, idx.key, "ID"), Cell(col, idx.team, "チーム名"), Cell(col, idx.summary, "イベント名"),
      Cell(col, idx.datetime, "日時"), Cell(col, idx.code, "イベントコード"), Cell(col, idx.hostPerson, "開催者"),
      Cell(col, idx.progress, "途中経過"), Cell(col, idx.result, "結果"), Cell(col, idx.note, "備考"))
  }

  /** One line of `import_csv`, in the order the source evaluates it: the key, the team and
      the summary, the team fallback (which raises on a missing summary), `Time.parse` of the
      date, the other fields, and last `add`, which needs a key. */
  function NormalizeCells(c: Cells, parse: string -> Option<int>): (r: Result<(string, Attributes), RowError>)
    ensures c.key.Err? ==> r == Err(c.key.error)
    ensures r.Ok? ==>
      c.key == Ok(Some(r.value.0)) && c.summary == Ok(r.value.1.summary) &&
      c.datetime.Ok? && c.datetime.value.Some? && parse(c.datetime.value.value) == Some(r.value.1.datetime) &&
      c.code == Ok(r.value.1.code) && c.hostPerson == Ok(r.value.1.hostPerson) &&
      c.progress == Ok(r.value.1.progress) && c.result == Ok(r.value.1.result) && c.note == Ok(r.value.1.note)
  {
    var key :- c.key;
    var team :- c.team;
    var summary :- c.summary;
    var team :- ResolveGroup(team, summary, "イベント名", TEAM_MARKER);
    var time :- c.datetime;
    if time.None? || parse(time.value).None? then Err(BadTime("日時"))
    else
      var code :- c.code;
      var hostPerson :- c.hostPerson;
      var progress :- c.progress;
      var result :- c.result;
      var note :- c.note;
      if key.None? then Err(NilKey)
      else Ok((key.value, Attributes(parse(time.value).value, summary, code, hostPerson, team, progress, result, note)))
  }

  /** One line of `import_csv` read through the column index: a header without "ID" raises
      before anything else, and a line that is added had every column and a key. */
  function NormalizeLine(idx: ColumnIndex, col: CsvLine, parse: string -> Option<int>): (r: Result<(string, Attributes), RowError>)
    ensures idx.key.None? ==> r == Err(NoSuchColumn("ID"))
    ensures r.Ok? ==>
      idx.key.Some? && idx.team.Some? && idx.summary.Some? && idx.datetime.Some? &&
      idx.code.Some? && idx.hostPerson.Some? && idx.progress.Some? && idx.result.Some? && idx.note.Some?
    ensures r.Ok? ==> idx.key.value < |col| && col[idx.key.value] == Some(r.value.0)
  {
    NormalizeCells(CellsOf(idx, col), parse)
  }

  /** `col[column_index[name]]` reads the cell under the header `name`, and raises when the
      header has no such name. */
  lemma CellIsByName(head: CsvLine, col: CsvLine, name: string)
    ensures IndexOf(head, name).None? ==> Cell(col, IndexOf(head, name), name) == Err(NoSuchColumn(name))
    ensures IndexOf(head, name).Some? ==> Cell(col, IndexOf(head, name), name) == Ok(ByName(head, col, name))
  {
  }

  /** A header that lacks one of the names makes every line raise. */
  lemma MissingColumnRaises(head: CsvLine, col: CsvLine, parse: string -> Option<int>)
    requires !HasAllColumns(head)
    ensures NormalizeLine(ColumnIndexOf(head), col, parse).Err?
  {
  }

  /** Under a header with every name, the nine reads are the cells under those names. */
  lemma CellsByName(head: CsvLine, col: CsvLine)
    requires HasAllColumns(head)
    ensures CellsOf(ColumnIndexOf(head), col) ==
      Cells(Ok(ByName(head, col, "ID")), Ok(ByName(head, col, "チーム名")), Ok(ByName(head, col, "イベント名")),
            Ok(ByName(head, col, "日時")), Ok(ByName(head, col, "イベントコード")), Ok(ByName(head, col, "開催者")),
            Ok(ByName(head, col, "途中経過")), Ok(ByName(head, col, "結果")), Ok(ByName(head, col, "備考")))
  {
  }

  /** What a line with every cell readable gives: an error exactly when the team cannot be
      resolved, the date does not parse or the key is `nil`, and otherwise the cells as
      read, with the team resolved. */
  lemma NormalizeReadable(key: Option<string>, team: Option<string>, summary: Option<string>, time: Option<string>,
                          code: Option<string>, hostPerson: Option<string>, progress: Option<string>,
                          result: Option<string>, note: Option<string>, parse: string -> Option<int>)
    ensures var r := NormalizeCells(Cells(Ok(key), Ok(team), Ok(summary), Ok(time), Ok(code), Ok(hostPerson),
                                          Ok(progress), Ok(result), Ok(note)), parse);
      (r.Err? <==> (!IsValidGroup(team) && summary.None?) || time.None? || parse(time.value).None? || key.None?) &&
      (r.Ok? ==>
        Some(r.value.0) == key && Some(r.value.1.datetime) == parse(time.value) &&
        r.value.1 == Attributes(r.value.1.datetime, summary, code, hostPerson,
                                ResolveGroup(team, summary, "イベント名", TEAM_MARKER).value, progress, result, note))
  {
  }

  function Normalizer(idx: ColumnIndex, parse: string -> Option<int>): CsvLine -> Result<(string, Attributes), RowError> {
    col => NormalizeLine(idx, col, parse)
  }

  /** Two lines that hold the same cells under the same header names import alike. */
  lemma SameCellsImportAlike(head1: CsvLine, col1: CsvLine, head2: CsvLine, col2: CsvLine, parse: string -> Option<int>)
    requires forall name :: IndexOf(head1, name).Some? <==> IndexOf(head2, name).Some?
    requires forall name :: ByName(head1, col1, name) == ByName(head2, col2, name)
    ensures NormalizeLine(ColumnIndexOf(head1), col1, parse) == NormalizeLine(ColumnIndexOf(head2), col2, parse)
  {
    forall name | true
      ensures Cell(col1, IndexOf(head1, name), name) == Cell(col2, IndexOf(head2, name), name)
    {
      CellIsByName(head1, col1, name);
      CellIsByName(head2, col2, name);
    }
    assert CellsOf(ColumnIndexOf(head1), col1) == CellsOf(ColumnIndexOf(head2), col2);
  }

  /** `head2` and `lines2` are `head1` and `lines1` with their columns reordered by `p`,
      whose inverse is `q`. */
  predicate Permuted(head1: CsvLine, lines1: seq<CsvLine>, head2: CsvLine, lines2: seq<CsvLine>,
                     p: seq<nat>, q: seq<nat>) {
    var n := |head1|;
    |head2| == n && |p| == n && |q| == n && |lines1| == |lines2| &&
    (forall j :: 0 <= j < n ==> p[j] < n && q[j] < n && q[p[j]] == j && p[q[j]] == j) &&
    (forall j :: 0 <= j < n ==> head2[j] == head1[p[j]]) &&
    (forall i :: 0 <= i < |lines1| ==> |lines1[i]| == n && |lines2[i]| == n) &&
    (forall i, j :: 0 <= i < |lines1| && 0 <= j < n ==> lines2[i][j] == lines1[i][p[j]])
  }

  /** The header names no column twice. */
  predicate DistinctNames(head: CsvLine) {
    forall i, j :: 0 <= i < j < |head| ==> head[i] != head[j]
  }

  /** The same file with its columns in another order imports the same records and stops at
      the same line for the same reason. */
  lemma PermutedColumnsImportAlike(head1: CsvLine, lines1: seq<CsvLine>, head2: CsvLine, lines2: seq<CsvLine>,
                                   p: seq<nat>, q: seq<nat>, parse: string -> Option<int>)
    requires Permuted(head1, lines1, head2, lines2, p, q) && DistinctNames(head1)
    ensures NormalizeAll(lines1, Normalizer(ColumnIndexOf(head1), parse)) ==
            NormalizeAll(lines2, Normalizer(ColumnIndexOf(head2), parse))
  {
    forall name: string
      ensures IndexOf(head1, name).Some? <==> IndexOf(head2, name).Some?
      ensures IndexOf(head1, name).Some? ==> IndexOf(head2, name).Some? && p[IndexOf(head2, name).value] == IndexOf(head1, name).value
    {
      PermutedIndex(head1, head2, p, q, name);
    }
    forall i | 0 <= i < |lines1|
      ensures Normalizer(ColumnIndexOf(head1), parse)(lines1[i]) == Normalizer(ColumnIndexOf(head2), parse)(lines2[i])
    {
      SameCellsImportAlike(head1, lines1[i], head2, lines2[i], parse);
    }
    NormalizeAllAlike(lines1, Normalizer(ColumnIndexOf(head1), parse), lines2, Normalizer(ColumnIndexOf(head2), parse));
  }

  /** A name is found in both headers or in neither, and the reordering maps one place to
      the other. */
  lemma PermutedIndex(head1: CsvLine, head2: CsvLine, p: seq<nat>, q: seq<nat>, name: string)
    requires |head2| == |head1| == |p| == |q|
    requires forall j :: 0 <= j < |head1| ==> p[j] < |head1| && q[j] < |head1| && q[p[j]] == j && p[q[j]] == j
    requires forall j :: 0 <= j < |head1| ==> head2[j] == head1[p[j]]
    requires DistinctNames(head1)
    ensures IndexOf(head1, name).Some? <==> IndexOf(head2, name).Some?
    ensures IndexOf(head1, name).Some? ==> IndexOf(head2, name).Some? && p[IndexOf(head2, name).value] == IndexOf(head1, name).value
  {
    var i1, i2 := IndexOf(head1, name), IndexOf(head2, name);
    if i1.Some? {
      var x := i1.value;
      assert head2[q[x]] == Some(name);
      assert i2.Some?;
    }
    if i2.Some? {
      var y := i2.value;
      assert head1[p[y]] == Some(name);
      assert i1.Some?;
      var x := i1.value;
    }
  }

  /** Why `import_csv` stopped: an empty file has no header to `shift` (`nil.index` raises),
      otherwise a line raised. */
  datatype CsvFailure = EmptyFile | BadLine(failure: ImportError)

  function Datetime(a: Attributes): int { a.datetime }
  function Team(a: Attributes): Option<string> { a.team }
  function HostPerson(a: Attributes): Option<string> { a.hostPerson }

  /** The columns `select_target_column` looks into: summary, progress, result and note. */
  function Targets(a: Attributes): (texts: seq<string>)
    ensures |texts| == 4
  {
    [ToS(a.summary), ToS(a.progress), ToS(a.result), ToS(a.note)]
  }

  /** The word occurs in the summary, the progress, the result or the note. */
  predicate InSomeColumn(a: Attributes, word: string) {
    Contains(ToS(a.summary), word) || Contains(ToS(a.progress), word) ||
    Contains(ToS(a.result), word) || Contains(ToS(a.note), word)
  }

  lemma TargetsMatch(a: Attributes, word: string)
    ensures WordMatches(Targets(a), word) <==> InSomeColumn(a, word)
  {
    var texts := Targets(a);
    if InSomeColumn(a, word) {
      if Contains(ToS(a.summary), word) {
        assert Contains(texts[0], word);
      } else if Contains(ToS(a.progress), word) {
        assert Contains(texts[1], word);
      } else if Contains(ToS(a.result), word) {
        assert Contains(texts[2], word);
      } else {
        assert Contains(texts[3], word);
      }
    }
  }

  /** `TargetsMatch` for some word and for every word of a list. */
  lemma TargetsMatchWords(a: Attributes, words: seq<string>)
    ensures (exists i :: 0 <= i < |words| && WordMatches(Targets(a), words[i])) <==>
            (exists i :: 0 <= i < |words| && InSomeColumn(a, words[i]))
    ensures (forall i :: 0 <= i < |words| ==> WordMatches(Targets(a), words[i])) <==>
            (forall i :: 0 <= i < |words| ==> InSomeColumn(a, words[i]))
  {
    forall i | 0 <= i < |words| {
      TargetsMatch(a, words[i]);
    }
  }

  /** The hash `count_word_period` returns for a month that starts at `start`. */
  function MonthCounts(t: Table<Attributes>, start: int, lists: seq<seq<string>>): map<Option<string>, nat> {
    Tally(lists, Counter(SelectPeriod(t, start, start + MONTH_WINDOW, Datetime), Targets))
  }

  method CountMonth(t: Table<Attributes>, start: int, lists: seq<seq<string>>) returns (counts: map<Option<string>, nat>)
    ensures counts == MonthCounts(t, start, lists)
  {
    var period := SelectPeriod(t, start, start + MONTH_WINDOW, Datetime);
    counts := CountLists(period, lists, Targets);
  }

  /** The records of the 31 days from `start` in which a word of `words` occurs in the
      summary, the progress, the result or the note. */
  function MonthMatches(t: Table<Attributes>, start: int, words: seq<string>): set<string> {
    set k | k in t && start <= t[k].attrs.datetime < start + MONTH_WINDOW &&
      exists i :: 0 <= i < |words| && InSomeColumn(t[k].attrs, words[i])
  }

  lemma MatchingInMonth(t: Table<Attributes>, start: int, words: seq<string>)
    ensures Matching(SelectPeriod(t, start, start + MONTH_WINDOW, Datetime), words, Targets) == MonthMatches(t, start, words)
  {
    var period := SelectPeriod(t, start, start + MONTH_WINDOW, Datetime);
    forall k | k in period
      ensures (exists i :: 0 <= i < |words| && WordMatches(Targets(period[k].attrs), words[i])) <==>
              (exists i :: 0 <= i < |words| && InSomeColumn(t[k].attrs, words[i]))
    {
      forall i | 0 <= i < |words| {
        TargetsMatch(t[k].attrs, words[i]);
      }
    }
  }

  /** One key per list, its first word, holding the number of records of the month in which
      any word of the last list with that first word occurs. */
  lemma MonthCountsMeaning(t: Table<Attributes>, start: int, lists: seq<seq<string>>)
    ensures forall i :: 0 <= i < |lists| ==> First(lists[i]) in MonthCounts(t, start, lists)
    ensures forall key :: key in MonthCounts(t, start, lists) ==>
      exists i :: LastWithFirst(lists, i, key) && MonthCounts(t, start, lists)[key] == |MonthMatches(t, start, lists[i])|
  {
    var period := SelectPeriod(t, start, start + MONTH_WINDOW, Datetime);
    TallyMeaning(lists, Counter(period, Targets));
    forall key | key in MonthCounts(t, start, lists)
      ensures exists i :: LastWithFirst(lists, i, key) && MonthCounts(t, start, lists)[key] == |MonthMatches(t, start, lists[i])|
    {
      var i :| LastWithFirst(lists, i, key) && MonthCounts(t, start, lists)[key] == Counter(period, Targets)(lists[i]);
      ListCountMeaning(period, lists[i], Targets);
      MatchingInMonth(t, start, lists[i]);
    }
  }

  class Events {
    var events: Table<Attributes>

    /** `Events.new(name)` opens the database, whose table holds what earlier runs stored. */
    constructor (stored: Table<Attributes>)
      ensures events == stored
    {
      events := stored;
    }

    /** `import_csv(path)` on the lines of `open_csv`: the first line is the header, and
        each line after it is added under its ID until one raises. */
    method ImportCsv(lines: seq<CsvLine>, parse: string -> Option<int>) returns (failure: Option<CsvFailure>)
      modifies this
      ensures |lines| == 0 ==> events == old(events) && failure == Some(EmptyFile)
      ensures |lines| > 0 ==>
        var batch := NormalizeAll(lines[1..], Normalizer(ColumnIndexOf(lines[0]), parse));
        events == AddAll(old(events), batch.entries) &&
        (failure.None? <==> batch.failure.None?) &&
        (batch.failure.Some? ==> failure == Some(BadLine(batch.failure.value)))
    {
      if |lines| == 0 {
        return Some(EmptyFile);
      }
      var u, bad := ImportRows(events, lines[1..], Normalizer(ColumnIndexOf(lines[0]), parse));
      events := u;
      failure := if bad.Some? then Some(BadLine(bad.value)) else None;
    }

    /** `search_word(words, opts)` on the table. */
    function SearchWord(words: seq<string>, opts: SearchOptions, now: int): (r: Table<Attributes>)
      reads this
      ensures r == Query.SearchWord(events, words, opts, now, Datetime, Targets)
      ensures forall k :: k in r ==> k in events && r[k] == events[k]
      ensures opts.operator.GetOr(Or).Or? && Period(opts, now).None? ==>
        forall k :: k in events ==>
          (k in r <==> exists i :: 0 <= i < |words| && InSomeColumn(events[k].attrs, words[i]))
      ensures opts.operator.GetOr(Or).And? && Period(opts, now).None? ==>
        forall k :: k in events ==>
          (k in r <==> forall i :: 0 <= i < |words| ==> InSomeColumn(events[k].attrs, words[i]))
    {
      var r := Query.SearchWord(events, words, opts, now, Datetime, Targets);
      forall k | k in events {
        TargetsMatchWords(events[k].attrs, words);
      }
      r
    }

    /** `count_word_period(year, month, words_list)`; `None` when the first of the month does
        not parse. */
    method CountWordPeriod(year: Option<string>, month: Option<string>, lists: seq<seq<string>>,
                           parse: string -> Option<int>)
      returns (counts: Option<map<Option<string>, nat>>)
      ensures counts.None? <==> parse(MonthStartText(year, month)).None?
      ensures counts.Some? ==> counts.value == MonthCounts(events, parse(MonthStartText(year, month)).value, lists)
    {
      var start := parse(MonthStartText(year, month));
      if start.Some? {
        var c := CountMonth(events, start.value, lists);
        counts := Some(c);
      } else {
        counts := None;
      }
    }

    /** `get_top_team(events, limit)`: teams by number of records, without `nil`. */
    method GetTopTeam(records: Table<Attributes>, limit: int) returns (top: seq<(Option<string>, nat)>)
      ensures IsTop(Eligible(records, Team, true), limit, top)
      ensures !Listed(top, None)
    {
      top := TopGroups(records, Team, true, limit);
      TopGroupsAreReal(records, Team, true, limit, top);
    }

    /** `get_top_host_person(events, limit)`: host persons by number of records, `nil`
        included. */
    method GetTopHostPerson(records: Table<Attributes>, limit: int) returns (top: seq<(Option<string>, nat)>)
      ensures IsTop(Eligible(records, HostPerson, false), limit, top)
    {
      top := TopGroups(records, HostPerson, false, limit);
    }

    /** `paginate(events, page: page)`: the page of the ranking by votes, then date. */
    method Paginate(records: Table<Attributes>, page: Option<int>) returns (r: Option<seq<string>>)
      ensures r.None? <==> page.GetOr(1) < 1
      ensures r.Some? ==> forall order :: IsRanking(records, Datetime, order) ==> r.value == PageOf(order, page.GetOr(1))
    {
      r := Ranking.Paginate(records, Datetime, page);
    }

    /** `up_good_count(key)`: one more vote; an unknown key raises and changes nothing. */
    method UpGoodCount(key: string) returns (good: Option<int>)
      modifies this
      ensures key in old(events) ==> events == Bump(old(events), key, 1) && good == Some(old(events)[key].good + 1)
      ensures key !in old(events) ==> events == old(events) && good.None?
    {
      if key !in events {
        return None;
      }
      events := Bump(events, key, 1);
      good := Some(events[key].good);
    }

    /** `down_good_count(key)`: one vote less, with no lower bound. */
    method DownGoodCount(key: string) returns (good: Option<int>)
      modifies this
      ensures key in old(events) ==> events == Bump(old(events), key, -1) && good == Some(old(events)[key].good - 1)
      ensures key !in old(events) ==> events == old(events) && good.None?
    {
      if key !in events {
        return None;
      }
      events := Bump(events, key, -1);
      good := Some(events[key].good);
    }
  }

  /** The team stored for a line is never "Null". */
  lemma StoredTeamIsValid(idx: ColumnIndex, col: CsvLine, parse: string -> Option<int>)
    requires NormalizeLine(idx, col, parse).Ok?
    ensures NormalizeLine(idx, col, parse).value.1.team != Some("Null")
  {
    var team := Cell(col, idx.team, "チーム名").value;
    var summary := Cell(col, idx.summary, "イベント名").value;
    ResolvedGroupNeverNull(team, summary, "イベント名", TEAM_MARKER);
  }

  /** The example of spec/lib/events_spec.rb: counts {A: 3, B: 2, C: 1} cut to one team give
      [[A, 3]]. */
  lemma TopTeamExample(records: Table<Attributes>, top: seq<(Option<string>, nat)>)
    requires Eligible(records, Team, true) == map[Some("A") := 3, Some("B") := 2, Some("C") := 1]
    requires IsTop(Eligible(records, Team, true), 1, top)
    ensures top == [(Some("A"), 3)]
  {
    TopOneExample(top);
  }
}
