/** `EventManage::Events`, the current revision: events read from a CSV file with a header
    row, searched by keyword over title, venue, summary and note, and ranked by community
    and organizer. The Groonga table is the field `events`; `Time.parse` is the parameter
    `parse`, which gives `None` where Ruby raises, and `Time.now` the parameter `now`. */
module EventManage {
  import opened Wrappers
  import opened RubyCore
  import opened Store
  import opened GroupScan
  import opened Ingest
  import opened Query
  import opened Ranking

  /** The columns of the `Events` table besides `good`; `nil` columns are `None`. */
  datatype Attributes = Attributes(
    datetime: int,
    title: Option<string>,
    uri: Option<string>,
    organizer: Option<string>,
    community: Option<string>,
    venue: Option<string>,
    summary: Option<string>,
    note: Option<string>)

  /** A CSV row read with `headers: true`: a field by header name, `nil` for a header the
      file lacks and for an empty cell. */
  type CsvRow = map<string, Option<string>>

  function Field(row: CsvRow, name: string): Option<string> {
    if name in row then row[name] else None
  }

  function Datetime(a: Attributes): int { a.datetime }
  function Community(a: Attributes): Option<string> { a.community }
  function Organizer(a: Attributes): Option<string> { a.organizer }

  /** The columns `select_target_column` looks into: title, venue, summary and note. A `nil`
      column holds no word. */
  function Targets(a: Attributes): (texts: seq<string>)
    ensures |texts| == 4
  {
    [ToS(a.title), ToS(a.venue), ToS(a.summary), ToS(a.note)]
  }

  /** The word occurs in the title, the venue, the summary or the note. */
  predicate InSomeColumn(a: Attributes, word: string) {
    Contains(ToS(a.title), word) || Contains(ToS(a.venue), word) ||
    Contains(ToS(a.summary), word) || Contains(ToS(a.note), word)
  }

  lemma TargetsMatch(a: Attributes, word: string)
    ensures WordMatches(Targets(a), word) <==> InSomeColumn(a, word)
  {
    var texts := Targets(a);
    if InSomeColumn(a, word) {
      if Contains(ToS(a.title), word) {
        assert Contains(texts[0], word);
      } else if Contains(ToS(a.venue), word) {
        assert Contains(texts[1], word);
      } else if Contains(ToS(a.summary), word) {
        assert Contains(texts[2], word);
      } else {
        assert Contains(texts[3], word);
      }
    }
  }

  /** `TargetsMatch` for some word and for every word of a list. */
  lemma TargetsMatchWords(a: Attributes, words: seq<string>)
    ensures (exists i :: 0 <= i < |words| && WordMatches(Targets(a), words[i])) <==>
            (exists i :: 0 <= i < |words| && InSomeColumn(a, words[i]))
    ensures (forall i :: 0 <= i < |words| ==> WordMatches(Targets(a), words[i])) <==>
            (forall i :: 0 <= i < |words| ==> InSomeColumn(a, words[i]))
  {
    forall i | 0 <= i < |words| {
      TargetsMatch(a, words[i]);
    }
  }

  /** One row of `import_csv`, in the order the source evaluates it: the community (whose
      fallback scans the title and raises on a missing one), then `Time.parse` of the date,
      then the other fields, and last the event ID that `add` needs. */
  function NormalizeRow(row: CsvRow, parse: string -> Option<int>): (r: Result<(string, Attributes), RowError>)
    ensures r.Ok? ==> Field(row, "イベントID") == Some(r.value.0)
    ensures r.Ok? ==> r.value.1.title == Field(row, "イベント名") && r.value.1.uri == Field(row, "告知サイトURL") &&
                      r.value.1.organizer == Field(row, "開催者") && r.value.1.venue == Field(row, "開催地区") &&
                      r.value.1.summary == Field(row, "概要") && r.value.1.note == Field(row, "備考")
    ensures r.Ok? ==> Field(row, "開催日時").Some? && parse(Field(row, "開催日時").value) == Some(r.value.1.datetime)
    ensures r.Ok? && IsValidGroup(Field(row, "開催グループ")) ==> r.value.1.community == Field(row, "開催グループ")
    ensures r.Ok? && !IsValidGroup(Field(row, "開催グループ")) ==>
      Field(row, "イベント名").Some? && r.value.1.community == Scan(Field(row, "イベント名").value, COMMUNITY_MARKER)
    ensures r.Err? <==>
      (!IsValidGroup(Field(row, "開催グループ")) && Field(row, "イベント名").None?) ||
      Field(row, "開催日時").None? || parse(Field(row, "開催日時").value).None? ||
      Field(row, "イベントID").None?
  {
    var community :- ResolveGroup(Field(row, "開催グループ"), Field(row, "イベント名"), "イベント名", COMMUNITY_MARKER);
    var time := Field(row, "開催日時");
    if time.None? || parse(time.value).None? then Err(BadTime("開催日時"))
    else
      var attrs := Attributes(
        parse(time.value).value, Field(row, "イベント名"), Field(row, "告知サイトURL"), Field(row, "開催者"),
        community, Field(row, "開催地区"), Field(row, "概要"), Field(row, "備考"));
      var key := Field(row, "イベントID");
      if key.None? then Err(NilKey) else Ok((key.value, attrs))
  }

  function Normalizer(parse: string -> Option<int>): CsvRow -> Result<(string, Attributes), RowError> {
    row => NormalizeRow(row, parse)
  }

  /** The stored community is never "Null", whatever the row held. */
  lemma StoredCommunityIsValid(row: CsvRow, parse: string -> Option<int>)
    requires NormalizeRow(row, parse).Ok?
    ensures NormalizeRow(row, parse).value.1.community != Some("Null")
  {
    ResolvedGroupNeverNull(Field(row, "開催グループ"), Field(row, "イベント名"), "イベント名", COMMUNITY_MARKER);
  }

  /** The hash `count_word_period` returns for a month that starts at `start`: each list of
      synonyms counted over the records of `[start, start + 31 days)`. */
  function MonthCounts(t: Table<Attributes>, start: int, lists: seq<seq<string>>): map<Option<string>, nat> {
    Tally(lists, Counter(SelectPeriod(t, start, start + MONTH_WINDOW, Datetime), Targets))
  }

  /** The records of the 31 days from `start` in which a word of `words` occurs in the
      title, the venue, the summary or the note. */
  function MonthMatches(t: Table<Attributes>, start: int, words: seq<string>): set<string> {
    set k | k in t && start <= t[k].attrs.datetime < start + MONTH_WINDOW &&
      exists i :: 0 <= i < |words| && InSomeColumn(t[k].attrs, words[i])
  }

  /** The hash of `count_word_period` has a key for every list, its first word, and under it
      the number of records of the month that hold any word of the last list with that first
      word. */
  lemma MonthCountsMeaning(t: Table<Attributes>, start: int, lists: seq<seq<string>>)
    ensures forall i :: 0 <= i < |lists| ==> First(lists[i]) in MonthCounts(t, start, lists)
    ensures forall key :: key in MonthCounts(t, start, lists) ==>
      exists i :: LastWithFirst(lists, i, key) && MonthCounts(t, start, lists)[key] == |MonthMatches(t, start, lists[i])|
  {
    var period := SelectPeriod(t, start, start + MONTH_WINDOW, Datetime);
    TallyMeaning(lists, Counter(period, Targets));
    forall key | key in MonthCounts(t, start, lists)
      ensures exists i :: LastWithFirst(lists, i, key) && MonthCounts(t, start, lists)[key] == |MonthMatches(t, start, lists[i])|
    {
      var i :| LastWithFirst(lists, i, key) && MonthCounts(t, start, lists)[key] == Counter(period, Targets)(lists[i]);
      ListCountMeaning(period, lists[i], Targets);
      MatchingInMonth(t, start, lists[i]);
    }
  }

  lemma MatchingInMonth(t: Table<Attributes>, start: int, words: seq<string>)
    ensures Matching(SelectPeriod(t, start, start + MONTH_WINDOW, Datetime), words, Targets) == MonthMatches(t, start, words)
  {
    var period := SelectPeriod(t, start, start + MONTH_WINDOW, Datetime);
    forall k | k in period
      ensures (exists i :: 0 <= i < |words| && WordMatches(Targets(period[k].attrs), words[i])) <==>
              (exists i :: 0 <= i < |words| && InSomeColumn(t[k].attrs, words[i]))
    {
      forall i | 0 <= i < |words| {
        TargetsMatch(t[k].attrs, words[i]);
      }
    }
  }

  method CountMonth(t: Table<Attributes>, start: int, lists: seq<seq<string>>) returns (counts: map<Option<string>, nat>)
    ensures counts == MonthCounts(t, start, lists)
  {
    var period := SelectPeriod(t, start, start + MONTH_WINDOW, Datetime);
    counts := CountLists(period, lists, Targets);
  }

  class Events {
    var events: Table<Attributes>

    /** `Events.new(name)` opens the database, whose table holds what earlier runs stored. */
    constructor (stored: Table<Attributes>)
      ensures events == stored
    {
      events := stored;
    }

    /** `import_csv(path)` on the rows the CSV reader yields: each row is added under its
        event ID, an ID already present keeps its record, and the first row that raises
        ends the import with the rows before it added. */
    method ImportCsv(rows: seq<CsvRow>, parse: string -> Option<int>) returns (failure: Option<ImportError>)
      modifies this
      ensures events == AddAll(old(events), NormalizeAll(rows, Normalizer(parse)).entries)
      ensures failure == NormalizeAll(rows, Normalizer(parse)).failure
    {
      var u;
      u, failure := ImportRows(events, rows, Normalizer(parse));
      events := u;
    }

    /** `search_word(words, opts)` on the table. */
    function SearchWord(words: seq<string>, opts: SearchOptions, now: int): (r: Table<Attributes>)
      reads this
      ensures r == Query.SearchWord(events, words, opts, now, Datetime, Targets)
      ensures forall k :: k in r ==> k in events && r[k] == events[k]
      ensures opts.operator.GetOr(Or).Or? && Period(opts, now).None? ==>
        forall k :: k in events ==>
          (k in r <==> exists i :: 0 <= i < |words| && InSomeColumn(events[k].attrs, words[i]))
      ensures opts.operator.GetOr(Or).And? && Period(opts, now).None? ==>
        forall k :: k in events ==>
          (k in r <==> forall i :: 0 <= i < |words| ==> InSomeColumn(events[k].attrs, words[i]))
    {
      var r := Query.SearchWord(events, words, opts, now, Datetime, Targets);
      forall k | k in events {
        TargetsMatchWords(events[k].attrs, words);
      }
      r
    }

    /** `count_word_period(year, month, words_list)`: the records dated in the 31 days from
        the first of the month, counted list by list; `None` when the start does not parse. */
    method CountWordPeriod(year: Option<string>, month: Option<string>, lists: seq<seq<string>>,
                           parse: string -> Option<int>)
      returns (counts: Option<map<Option<string>, nat>>)
      ensures counts.None? <==> parse(MonthStartText(year, month)).None?
      ensures counts.Some? ==> counts.value == MonthCounts(events, parse(MonthStartText(year, month)).value, lists)
    {
      var start := parse(MonthStartText(year, month));
      if start.Some? {
        var c := CountMonth(events, start.value, lists);
        counts := Some(c);
      } else {
        counts := None;
      }
    }

    /** `get_top_community(events, limit)`: communities by number of events, without `nil`. */
    method GetTopCommunity(records: Table<Attributes>, limit: int) returns (top: seq<(Option<string>, nat)>)
      ensures IsTop(Eligible(records, Community, true), limit, top)
      ensures !Listed(top, None)
    {
      top := TopGroups(records, Community, true, limit);
      TopGroupsAreReal(records, Community, true, limit, top);
    }

    /** `get_top_organizer(events, limit)`: organizers by number of events, `nil` included. */
    method GetTopOrganizer(records: Table<Attributes>, limit: int) returns (top: seq<(Option<string>, nat)>)
      ensures IsTop(Eligible(records, Organizer, false), limit, top)
    {
      top := TopGroups(records, Organizer, false, limit);
    }

    /** `paginate(events, page: page)`: the page of the ranking by votes, then date. */
    method Paginate(records: Table<Attributes>, page: Option<int>) returns (r: Option<seq<string>>)
      ensures r.None? <==> page.GetOr(1) < 1
      ensures r.Some? ==> forall order :: IsRanking(records, Datetime, order) ==> r.value == PageOf(order, page.GetOr(1))
    {
      r := Ranking.Paginate(records, Datetime, page);
    }

    /** `up_good_count(key)`: one more vote for the record, whose new score is returned; an
        unknown key raises and changes nothing. */
    method UpGoodCount(key: string) returns (good: Option<int>)
      modifies this
      ensures key in old(events) ==> events == Bump(old(events), key, 1) && good == Some(old(events)[key].good + 1)
      ensures key !in old(events) ==> events == old(events) && good.None?
    {
      if key !in events {
        return None;
      }
      events := Bump(events, key, 1);
      good := Some(events[key].good);
    }

    /** `down_good_count(key)`: one vote less, with no lower bound. */
    method DownGoodCount(key: string) returns (good: Option<int>)
      modifies this
      ensures key in old(events) ==> events == Bump(old(events), key, -1) && good == Some(old(events)[key].good - 1)
      ensures key !in old(events) ==> events == old(events) && good.None?
    {
      if key !in events {
        return None;
      }
      events := Bump(events, key, -1);
      good := Some(events[key].good);
    }

    /** `size`: the number of records. */
    function Size(): (n: nat)
      reads this
      ensures n == |events.Keys|
    {
      |events|
    }
  }

  /** Importing a file a second time adds no record: the table, and so its size, is as after
      the first import. */
  lemma ImportTwice(t: Table<Attributes>, rows: seq<CsvRow>, parse: string -> Option<int>)
    ensures var once := AddAll(t, NormalizeAll(rows, Normalizer(parse)).entries);
      AddAll(once, NormalizeAll(rows, Normalizer(parse)).entries) == once
  {
    AddAllAgain(t, NormalizeAll(rows, Normalizer(parse)).entries);
  }

  /** A row with an event ID new to the table, and first in the file with that ID, is stored
      as read, with no votes. */
  lemma NewIdStoredUnvoted(t: Table<Attributes>, rows: seq<CsvRow>, parse: string -> Option<int>, i: nat)
    requires i < |NormalizeAll(rows, Normalizer(parse)).entries|
    requires NormalizeAll(rows, Normalizer(parse)).entries[i].0 !in t
    requires forall j :: 0 <= j < i ==> Field(rows[j], "イベントID") != Field(rows[i], "イベントID")
    ensures var entry := NormalizeAll(rows, Normalizer(parse)).entries[i];
      AddAll(t, NormalizeAll(rows, Normalizer(parse)).entries)[entry.0] == Record(entry.1, 0) &&
      entry == NormalizeRow(rows[i], parse).value
  {
    var entries := NormalizeAll(rows, Normalizer(parse)).entries;
    assert Normalizer(parse)(rows[i]) == Ok(entries[i]);
    forall j | 0 <= j < i
      ensures entries[j].0 != entries[i].0
    {
      assert Normalizer(parse)(rows[j]) == Ok(entries[j]);
    }
    AddAllFirstWins(t, entries, i);
  }

  /** Up then down restores the score, and two up-votes add two. */
  lemma VotesCancel(t: Table<Attributes>, key: string)
    requires key in t
    ensures Bump(Bump(t, key, 1), key, -1) == t
    ensures Bump(Bump(t, key, 1), key, 1)[key].good == t[key].good + 2
  {
    BumpUndo(t, key, 1);
  }
}
