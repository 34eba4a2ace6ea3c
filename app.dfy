/** The request handling of `app.rb`: the keyword list built from the query, the period
    bounds of `/search`, the page number and the last page, and the `/search`, `/stats` and
    `/good` handlers over the older revision's `Events`. A handler's answer is the redirect
    it sends or the values it hands to the `stats` template. */
module App {
  import opened Wrappers
  import opened RubyCore
  import opened ClassExpansion
  import opened OperationHelper
  import opened Store
  import opened Query
  import opened Ranking
  import OperationManage

  /** U+3000, the full-width space of Japanese input. */
  const IDEOGRAPHIC_SPACE := '\U{3000}'
  /** `60 * 60 * 24`: one day in seconds. */
  const DAY := 60 * 60 * 24
  const BAD_PERIOD_NOTICE := "検索期間の入力が不正です。正しい日付を入力してください。"

  // ---- keywords ----

  /** `gsub(/　/, ' ')`: every full-width space becomes an ASCII one. */
  function WidenSpaces(q: string): (r: string)
    decreases |q|
  {
    if |q| == 0 then ""
    else [if q[0] == IDEOGRAPHIC_SPACE then ' ' else q[0]] + WidenSpaces(q[1..])
  }

  lemma {:induction false} WidenSpacesChars(q: string)
    ensures |WidenSpaces(q)| == |q|
    ensures forall i :: 0 <= i < |q| ==>
      WidenSpaces(q)[i] == (if q[i] == IDEOGRAPHIC_SPACE then ' ' else q[i])
    decreases |q|
  {
    if |q| > 0 {
      WidenSpacesChars(q[1..]);
      forall i | 1 <= i < |q|
        ensures WidenSpaces(q)[i] == WidenSpaces(q[1..])[i - 1]
      {
      }
    }
  }

  /** `String#split` without a pattern, with `cur` the part of a word read so far: white
      space separates words, and runs of it, like white space at either end, give no
      empty word. */
  function SplitFrom(s: string, cur: string): seq<string>
    decreases |s|
  {
    if |s| == 0 then (if |cur| > 0 then [cur] else [])
    else if IsSpace(s[0]) then (if |cur| > 0 then [cur] else []) + SplitFrom(s[1..], "")
    else SplitFrom(s[1..], cur + [s[0]])
  }

  function Split(s: string): seq<string> {
    SplitFrom(s, "")
  }

  function Concat(words: seq<string>): string
    decreases |words|
  {
    if |words| == 0 then "" else words[0] + Concat(words[1..])
  }

  /** `s` with its white space taken out. */
  function WithoutSpaces(s: string): string
    decreases |s|
  {
    if |s| == 0 then "" else (if IsSpace(s[0]) then "" else [s[0]]) + WithoutSpaces(s[1..])
  }

  /** A word of `split`: not empty and without white space. */
  predicate IsWord(w: string) {
    |w| > 0 && forall j :: 0 <= j < |w| ==> !IsSpace(w[j])
  }

  /** The words of `split`, one after another, spell out the text without its white space;
      each is a word, and each of its characters comes from the text. */
  lemma {:induction false} SplitFromWords(s: string, cur: string)
    requires forall j :: 0 <= j < |cur| ==> !IsSpace(cur[j])
    ensures Concat(SplitFrom(s, cur)) == cur + WithoutSpaces(s)
    ensures forall i :: 0 <= i < |SplitFrom(s, cur)| ==> IsWord(SplitFrom(s, cur)[i])
    ensures forall i, j :: 0 <= i < |SplitFrom(s, cur)| && 0 <= j < |SplitFrom(s, cur)[i]| ==>
      SplitFrom(s, cur)[i][j] in cur + s
    decreases |s|
  {
    if |s| == 0 {
      assert cur + WithoutSpaces(s) == cur;
      if |cur| > 0 {
        assert Concat([cur]) == cur + Concat([]);
      }
    } else if IsSpace(s[0]) {
      SplitFromWords(s[1..], "");
      var rest := SplitFrom(s[1..], "");
      if |cur| > 0 {
        assert ([cur] + rest)[1..] == rest;
        assert Concat([cur] + rest) == cur + Concat(rest);
      } else {
        assert [] + rest == rest;
      }
      assert WithoutSpaces(s) == WithoutSpaces(s[1..]);
      forall i, j | 0 <= i < |SplitFrom(s, cur)| && 0 <= j < |SplitFrom(s, cur)[i]|
        ensures SplitFrom(s, cur)[i][j] in cur + s
      {
        if |cur| > 0 && i == 0 {
          assert SplitFrom(s, cur)[i][j] == (cur + s)[j];
        } else {
          var k := if |cur| > 0 then i - 1 else i;
          assert SplitFrom(s, cur)[i] == rest[k];
          assert rest[k][j] in s[1..];
          assert s[1..] == (cur + s)[|cur| + 1..];
        }
      }
    } else {
      var next := cur + [s[0]];
      SplitFromWords(s[1..], next);
      assert next + s[1..] == cur + s;
      assert WithoutSpaces(s) == [s[0]] + WithoutSpaces(s[1..]);
      assert next + WithoutSpaces(s[1..]) == cur + WithoutSpaces(s);
    }
  }

  /** `params[:q].gsub(/　/, ' ').split`: the keywords of a query. */
  function Keywords(q: string): (words: seq<string>)
    ensures forall i :: 0 <= i < |words| ==> IsWord(words[i])
    ensures Concat(words) == WithoutSpaces(WidenSpaces(q))
  {
    SplitFromWords(WidenSpaces(q), "");
    assert "" + WidenSpaces(q) == WidenSpaces(q);
    Split(WidenSpaces(q))
  }

  /** No keyword is empty or holds a space, ASCII or full-width, and the keywords together
      are the query with its spaces taken out. */
  lemma KeywordsAreWords(q: string)
    ensures forall i :: 0 <= i < |Keywords(q)| ==> IsWord(Keywords(q)[i])
    ensures forall i, j :: 0 <= i < |Keywords(q)| && 0 <= j < |Keywords(q)[i]| ==>
      Keywords(q)[i][j] != IDEOGRAPHIC_SPACE
    ensures Concat(Keywords(q)) == WithoutSpaces(WidenSpaces(q))
  {
    var wide := WidenSpaces(q);
    WidenSpacesChars(q);
    SplitFromWords(wide, "");
    assert "" + wide == wide;
    forall i, j | 0 <= i < |Keywords(q)| && 0 <= j < |Keywords(q)[i]|
      ensures Keywords(q)[i][j] != IDEOGRAPHIC_SPACE
    {
      var x :| 0 <= x < |wide| && wide[x] == Keywords(q)[i][j];
    }
  }

  // ---- pages ----

  /** `params[:page].to_i`, then 1 in place of anything not positive; a missing page is
      `nil.to_i`, which is 0. */
  function CurrentPage(page: Option<string>): (p: int)
    ensures p >= 1
    ensures NilToI(page) >= 1 ==> p == NilToI(page)
    ensures NilToI(page) <= 0 ==> p == 1
  {
    var p := NilToI(page);
    if p <= 0 then 1 else p
  }

  /** `((result_size - 1) / SHOW_EVENTS) + 1`, with Ruby's floor division: the number of
      pages the results fill, 0 for no results. */
  function LastPage(n: nat): (lp: int)
    ensures n == 0 ==> lp == 0
    ensures n > 0 ==> lp >= 1 && (lp - 1) * SHOW_EVENTS < n <= lp * SHOW_EVENTS
  {
    ((n - 1) / SHOW_EVENTS) + 1
  }

  /** The pages that hold results are exactly those from 1 to the last page. */
  lemma LastPageIsLastFull(order: seq<string>, page: int)
    requires page >= 1
    ensures |PageOf(order, page)| > 0 <==> page <= LastPage(|order|)
  {
  }

  /** The `i`-th record of a ranking is shown on page `i / 20 + 1`, which is never past the
      last page. */
  lemma EveryRecordOnAPage(order: seq<string>, i: nat)
    requires i < |order|
    ensures 1 <= i / SHOW_EVENTS + 1 <= LastPage(|order|)
    ensures PageOf(order, i / SHOW_EVENTS + 1)[i % SHOW_EVENTS] == order[i]
  {
  }

  // ---- period of /search ----

  /** The bounds `/search` passes to `search_word`: a blank parameter gives no bound, the
      end date is moved one day on so that the end day itself is searched, and a date that
      does not parse is an error. */
  function SearchBounds(startTime: Option<string>, endTime: Option<string>, parse: string -> Option<int>)
    : (r: Result<(Option<int>, Option<int>), string>)
    ensures r.Err? <==>
      (!Blank(startTime) && parse(startTime.value).None?) || (!Blank(endTime) && parse(endTime.value).None?)
    ensures r.Err? ==> r.error == BAD_PERIOD_NOTICE
    ensures r.Ok? ==> (r.value.0.None? <==> Blank(startTime)) && (r.value.1.None? <==> Blank(endTime))
    ensures r.Ok? && !Blank(startTime) ==> r.value.0 == parse(startTime.value)
    ensures r.Ok? && !Blank(endTime) ==> r.value.1 == Some(parse(endTime.value).value + DAY)
  {
    var start := if Blank(startTime) then Ok(None)
      else if parse(startTime.value).None? then Err(BAD_PERIOD_NOTICE)
      else Ok(parse(startTime.value));
    var end := if Blank(endTime) then Ok(None)
      else if parse(endTime.value).None? then Err(BAD_PERIOD_NOTICE)
      else Ok(Some(parse(endTime.value).value + DAY));
    if start.Err? then Err(start.error)
    else if end.Err? then Err(end.error)
    else Ok((start.value, end.value))
  }

  /** A record dated any time on the end day lies before the end bound. */
  lemma EndDayIncluded(startTime: Option<string>, endTime: Option<string>, parse: string -> Option<int>, datetime: int)
    requires SearchBounds(startTime, endTime, parse).Ok? && !Blank(endTime)
    requires parse(endTime.value).value <= datetime < parse(endTime.value).value + DAY
    ensures datetime < SearchBounds(startTime, endTime, parse).value.1.value
  {
  }

  // ---- handlers ----

  /** What a handler answers. */
  datatype Response =
    | Redirect(location: string, notice: Option<string>)
    | StatsPage(keyword: Option<seq<string>>, resultSize: nat, currentPage: int, lastPage: int, pagedEvents: seq<string>)
    | ServerError   // an exception the handler does not rescue

  /** `SEARCH_WORD.assoc(q)`: the first list of synonyms that starts with `q`. */
  function Assoc(lists: seq<seq<string>>, q: string): (r: Option<seq<string>>)
    ensures r.Some? ==> exists i :: 0 <= i < |lists| && lists[i] == r.value
    ensures r.Some? ==> |r.value| > 0 && r.value[0] == q
    ensures r.None? ==> forall i :: 0 <= i < |lists| ==> |lists[i]| == 0 || lists[i][0] != q
    decreases |lists|
  {
    if |lists| == 0 then None
    else if |lists[0]| > 0 && lists[0][0] == q then Some(lists[0])
    else
      var r := Assoc(lists[1..], q);
      assert forall i :: 1 <= i < |lists| ==> lists[i] == lists[1..][i - 1];
      r
  }

  /** The page values `/search` and `/stats` compute from the records found. */
  method ShowRecords(keyword: Option<seq<string>>, records: Table<OperationManage.Attributes>, page: Option<string>)
    returns (r: Response)
    ensures r.StatsPage? && r.keyword == keyword && r.resultSize == |records|
    ensures r.currentPage == CurrentPage(page) && r.lastPage == LastPage(|records|)
    ensures forall order :: IsRanking(records, OperationManage.Datetime, order) ==>
      r.pagedEvents == PageOf(order, CurrentPage(page))
  {
    var currentPage := NilToI(page);
    if currentPage <= 0 {
      currentPage := 1;
    }
    var lastPage := ((|records| - 1) / SHOW_EVENTS) + 1;
    var paged := Paginate(records, OperationManage.Datetime, Some(currentPage));
    r := StatsPage(keyword, |records|, currentPage, lastPage, paged.value);
  }

  /** `get '/search'`: the keywords must all be found (`:and`), within the period when one
      is given; a date that does not parse sends the user back with a notice. */
  method Search(events: OperationManage.Events, q: Option<string>, startTime: Option<string>, endTime: Option<string>,
                page: Option<string>, parse: string -> Option<int>, now: int)
    returns (r: Response)
    ensures q.None? ==> r == Redirect("/", None)
    ensures q.Some? && SearchBounds(startTime, endTime, parse).Err? ==> r == Redirect("/", Some(BAD_PERIOD_NOTICE))
    ensures q.Some? && SearchBounds(startTime, endTime, parse).Ok? ==>
      var bounds := SearchBounds(startTime, endTime, parse).value;
      var records := events.SearchWord(Keywords(q.value), SearchOptions(Some(And), bounds.0, bounds.1), now);
      r.StatsPage? && r.keyword == Some(Keywords(q.value)) && r.resultSize == |records| &&
      r.currentPage == CurrentPage(page) && r.lastPage == LastPage(|records|) &&
      forall order :: IsRanking(records, OperationManage.Datetime, order) ==> r.pagedEvents == PageOf(order, r.currentPage)
  {
    if q.None? {
      return Redirect("/", None);
    }
    var keyword := Keywords(q.value);
    var bounds := SearchBounds(startTime, endTime, parse);
    if bounds.Err? {
      return Redirect("/", Some(bounds.error));
    }
    var records := events.SearchWord(keyword, SearchOptions(Some(And), bounds.value.0, bounds.value.1), now);
    r := ShowRecords(Some(keyword), records, page);
  }

  /** `Time.parse("#{year}#{month}01")` with the year and month `to_year` and `to_month`
      read from `ym`; a part they reject interpolates as the empty string. */
  function MonthStart(ym: string, parse: string -> Option<int>): (start: Option<int>)
    ensures ToYear(ym).Some? && ToMonth(ym).Some? ==> start == parse(ym[..4] + ym[5..Min(7, |ym|)] + "01")
    ensures ToYear(ym).Some? && ToMonth(ym).None? ==> start == parse(ym[..4] + "01")
    ensures ToYear(ym).None? ==> start == parse(ToS(ToMonth(ym)) + "01")
  {
    match (ToYear(ym), ToMonth(ym))
    case (Some(year), Some(month)) => parse(year + month + "01")
    case (Some(year), None) => parse(year + "01")
    case (None, month) => parse(ToS(month) + "01")
  }

  /** What `search_word(@keyword, start_time: start, end_time: start + 31 days)` finds for
      a listed keyword: the records of the 31 days from `start` in which one of its words
      occurs. Both bounds are given, so the current time is not consulted. */
  function MonthRecords(events: OperationManage.Events, keyword: seq<string>, start: int)
    : (records: Table<OperationManage.Attributes>)
    reads events
    ensures forall k :: k in records ==> k in events.events && records[k] == events.events[k]
    ensures forall k :: k in events.events ==>
      (k in records <==>
        start <= events.events[k].attrs.datetime < start + MONTH_WINDOW &&
        exists i :: 0 <= i < |keyword| && OperationManage.InSomeColumn(events.events[k].attrs, keyword[i]))
  {
    StatsSearchesTheMonth(events.events, keyword, start);
    events.SearchWord(keyword, SearchOptions(None, Some(start), Some(start + MONTH_WINDOW)), start)
  }

  /** `get '/stats'`: the synonyms listed for `q`, counted over the 31 days from the first
      of the month `ym` names. A month that does not parse raises. So does a `q` that
      `SEARCH_WORD` does not list: `search_word(nil)` rescues to a plain empty array, which
      has no `paginate`. */
  method Stats(events: OperationManage.Events, q: Option<string>, ym: Option<string>, page: Option<string>,
               searchWord: seq<seq<string>>, parse: string -> Option<int>)
    returns (r: Response)
    ensures q.None? || ym.None? ==> r == Redirect("/", None)
    ensures q.Some? && ym.Some? && Assoc(searchWord, q.value).None? ==> r == ServerError
    ensures q.Some? && ym.Some? && MonthStart(ym.value, parse).None? ==> r == ServerError
    ensures q.Some? && ym.Some? && Assoc(searchWord, q.value).Some? && MonthStart(ym.value, parse).Some? ==>
      var records := MonthRecords(events, Assoc(searchWord, q.value).value, MonthStart(ym.value, parse).value);
      r.StatsPage? && r.keyword == Assoc(searchWord, q.value) && r.resultSize == |records| &&
      r.currentPage == CurrentPage(page) && r.lastPage == LastPage(|records|) &&
      forall order :: IsRanking(records, OperationManage.Datetime, order) ==> r.pagedEvents == PageOf(order, r.currentPage)
  {
    if q.None? || ym.None? {
      return Redirect("/", None);
    }
    var keyword := Assoc(searchWord, q.value);
    var start := MonthStart(ym.value, parse);
    if start.None? || keyword.None? {
      return ServerError;
    }
    r := ShowRecords(keyword, MonthRecords(events, keyword.value, start.value), page);
  }

  /** The records `/stats` finds for a listed keyword are those of the month window in
      which some synonym occurs. */
  lemma StatsSearchesTheMonth(events: Table<OperationManage.Attributes>, words: seq<string>, start: int)
    ensures forall k :: k in events ==>
      (k in Query.SearchWord(events, words, SearchOptions(None, Some(start), Some(start + MONTH_WINDOW)), start,
                             OperationManage.Datetime, OperationManage.Targets) <==>
        start <= events[k].attrs.datetime < start + MONTH_WINDOW &&
        exists i :: 0 <= i < |words| && OperationManage.InSomeColumn(events[k].attrs, words[i]))
  {
    forall k | k in events {
      OperationManage.TargetsMatchWords(events[k].attrs, words);
    }
  }

  /** `post '/good'`: one more vote for `key` when it is given, then back to the search. An
      unknown key raises in `up_good_count`. */
  method Good(events: OperationManage.Events, key: Option<string>, q: Option<string>, uriEscape: Option<string> -> string)
    returns (r: Response)
    modifies events
    ensures key.None? ==> events.events == old(events.events)
    ensures key.Some? && key.value in old(events.events) ==> events.events == Bump(old(events.events), key.value, 1)
    ensures key.Some? && key.value !in old(events.events) ==> events.events == old(events.events) && r == ServerError
    ensures key.None? || key.value in old(events.events) ==> r == Redirect("/search?q=" + uriEscape(q), None)
  {
    if key.Some? {
      var good := events.UpGoodCount(key.value);
      if good.None? {
        return ServerError;
      }
    }
    r := Redirect("/search?q=" + uriEscape(q), None);
  }
}
