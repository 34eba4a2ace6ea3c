/** The searches both revisions run on the table: `select_period`, `select_word`,
    `search_word` and the counting loop of `count_word_period`. A revision supplies two
    projections of its attributes: the event date, in seconds, and the texts of the columns
    that keyword matching looks into. The full-text index is modelled as plain substring
    matching on those texts. */
module Query {
  import opened Wrappers
  import opened RubyCore
  import opened Store

  /** `Time.parse("2000/01/01")`, the start of the period when only its end is given. */
  const DEFAULT_START := 946684800
  /** `60 * 60 * 24 * 31`: the length of the period `count_word_period` counts in. */
  const MONTH_WINDOW := 60 * 60 * 24 * 31

  datatype Operator = Or | And | Other(name: string)

  /** The options hash of `search_word`; `nil` entries are `None`. */
  datatype SearchOptions = SearchOptions(operator: Option<Operator>, startTime: Option<int>, endTime: Option<int>)

  /** `select_target_column(record, word)`: the word occurs in one of the target columns. */
  predicate WordMatches(texts: seq<string>, word: string) {
    exists i :: 0 <= i < |texts| && Contains(texts[i], word)
  }

  /** `words.inject(seed) { |tmp, word| tmp | select_target_column(record, word) }`. The
      seed is the record expression itself, which selects nothing on its own, so `acc` starts
      out false. */
  function AnyWord(acc: bool, texts: seq<string>, words: seq<string>): bool
    decreases |words|
  {
    if |words| == 0 then acc
    else AnyWord(acc || WordMatches(texts, words[0]), texts, words[1..])
  }

  lemma {:induction false} AnyWordExists(acc: bool, texts: seq<string>, words: seq<string>)
    ensures AnyWord(acc, texts, words) <==> acc || exists i :: 0 <= i < |words| && WordMatches(texts, words[i])
    decreases |words|
  {
    if |words| > 0 {
      AnyWordExists(acc || WordMatches(texts, words[0]), texts, words[1..]);
      if exists i :: 0 <= i < |words| && WordMatches(texts, words[i]) {
        var i :| 0 <= i < |words| && WordMatches(texts, words[i]);
        if i > 0 {
          assert words[1..][i - 1] == words[i];
        }
      }
    }
  }

  /** `words.map { |word| select_target_column(record, word) }`: a list of conditions, all
      of which the engine requires. */
  function AllWords(texts: seq<string>, words: seq<string>): bool
    decreases |words|
  {
    |words| == 0 || (WordMatches(texts, words[0]) && AllWords(texts, words[1..]))
  }

  lemma {:induction false} AllWordsForall(texts: seq<string>, words: seq<string>)
    ensures AllWords(texts, words) <==> forall i :: 0 <= i < |words| ==> WordMatches(texts, words[i])
    decreases |words|
  {
    if |words| > 0 {
      AllWordsForall(texts, words[1..]);
      assert forall i :: 1 <= i < |words| ==> words[1..][i - 1] == words[i];
    }
  }

  /** Whether the block of `select_word` keeps a record: with `:or` some word matches, with
      `:and` every word does. An unknown operator raises inside the block; the rescue then
      turns the whole result into an empty list. */
  function Keeps(op: Operator, words: seq<string>, texts: seq<string>): (b: bool)
    ensures op.Or? ==> (b <==> exists i :: 0 <= i < |words| && WordMatches(texts, words[i]))
    ensures op.And? ==> (b <==> forall i :: 0 <= i < |words| ==> WordMatches(texts, words[i]))
    ensures op.Other? ==> !b
  {
    AnyWordExists(false, texts, words);
    AllWordsForall(texts, words);
    match op
    case Or => AnyWord(false, texts, words)
    case And => AllWords(texts, words)
    case Other(_) => false
  }

  /** The records whose date lies in the half-open period `[lo, hi)`. */
  function SelectPeriod<A>(t: Table<A>, lo: int, hi: int, datetime: A -> int): (u: Table<A>)
    ensures forall k :: k in u <==> k in t && lo <= datetime(t[k].attrs) < hi
    ensures forall k :: k in u ==> u[k] == t[k]
  {
    map k | k in t && lo <= datetime(t[k].attrs) < hi :: t[k]
  }

  /** `select_word(events, words, opts)`: the records that satisfy the operator, as they are;
      nothing at all under an operator other than `:or` and `:and`. */
  function SelectWord<A>(t: Table<A>, words: seq<string>, op: Operator, targets: A -> seq<string>)
    : (u: Table<A>)
    ensures forall k :: k in u ==> k in t && u[k] == t[k]
    ensures forall k :: k in t ==> (k in u <==> Keeps(op, words, targets(t[k].attrs)))
    ensures op.Other? ==> u == map[]
  {
    if op.Other? then map[]
    else map k | k in t && Keeps(op, words, targets(t[k].attrs)) :: t[k]
  }

  /** Whether `search_word` restricts the search to a period, and to which one: a missing
      start is 2000/01/01 and a missing end is the current time. */
  function Period(opts: SearchOptions, now: int): Option<(int, int)> {
    if opts.startTime.Some? || opts.endTime.Some? then
      Some((opts.startTime.GetOr(DEFAULT_START), opts.endTime.GetOr(now)))
    else None
  }

  /** `search_word(words, opts)`: the period filter when a bound is given, then the keyword
      filter with `:or` unless another operator is given. */
  function SearchWord<A>(t: Table<A>, words: seq<string>, opts: SearchOptions, now: int,
                         datetime: A -> int, targets: A -> seq<string>): (u: Table<A>)
    ensures forall k :: k in u ==> k in t && u[k] == t[k]
    ensures forall k :: k in t ==>
      (k in u <==>
        (Period(opts, now).Some? ==>
          Period(opts, now).value.0 <= datetime(t[k].attrs) < Period(opts, now).value.1) &&
        Keeps(opts.operator.GetOr(Or), words, targets(t[k].attrs)))
  {
    var events := if opts.startTime.Some? || opts.endTime.Some? then
      SelectPeriod(t, opts.startTime.GetOr(DEFAULT_START), opts.endTime.GetOr(now), datetime)
    else t;
    SelectWord(events, words, opts.operator.GetOr(Or), targets)
  }

  /** A start without an end keeps no record dated before the start, nor any dated at or
      after `now`. */
  lemma StartOnlySearch<A>(t: Table<A>, words: seq<string>, opts: SearchOptions, now: int,
                           datetime: A -> int, targets: A -> seq<string>)
    requires opts.startTime.Some? && opts.endTime.None?
    ensures forall k :: k in SearchWord(t, words, opts, now, datetime, targets) ==>
      opts.startTime.value <= datetime(t[k].attrs) < now
  {
  }

  /** A single word that occurs in no record's target columns finds nothing, under either
      operator. */
  lemma AbsentWordFindsNothing<A>(t: Table<A>, word: string, opts: SearchOptions, now: int,
                                  datetime: A -> int, targets: A -> seq<string>)
    requires forall k :: k in t ==> !WordMatches(targets(t[k].attrs), word)
    ensures SearchWord(t, [word], opts, now, datetime, targets) == map[]
  {
    var u := SearchWord(t, [word], opts, now, datetime, targets);
    forall k | k in t
      ensures k !in u
    {
      assert !Keeps(opts.operator.GetOr(Or), [word], targets(t[k].attrs));
    }
  }

  /** A word found in one of a record's target columns finds that record, under either
      operator, when no period is given. */
  lemma PresentWordFindsRecord<A>(t: Table<A>, word: string, op: Operator, now: int,
                                  datetime: A -> int, targets: A -> seq<string>, k: string)
    requires !op.Other? && k in t && WordMatches(targets(t[k].attrs), word)
    ensures k in SearchWord(t, [word], SearchOptions(Some(op), None, None), now, datetime, targets)
  {
    assert Keeps(op, [word], targets(t[k].attrs));
  }

  /** `words.first`, which is `nil` for an empty list. */
  function First(words: seq<string>): Option<string> {
    if |words| > 0 then Some(words[0]) else None
  }

  /** `select_word(period_events, words).size`: how many records match any of the words. */
  function ListCount<A>(period: Table<A>, words: seq<string>, targets: A -> seq<string>): nat {
    |SelectWord(period, words, Or, targets)|
  }

  /** The records a list counts: those in which one of its words matches. */
  function Matching<A>(period: Table<A>, words: seq<string>, targets: A -> seq<string>): set<string> {
    set k | k in period && exists i :: 0 <= i < |words| && WordMatches(targets(period[k].attrs), words[i])
  }

  /** A list's count is the number of records that hold any of its words, each record
      counted once however many of the words it holds. */
  lemma ListCountMeaning<A>(period: Table<A>, words: seq<string>, targets: A -> seq<string>)
    ensures ListCount(period, words, targets) == |Matching(period, words, targets)|
  {
    var u := SelectWord(period, words, Or, targets);
    assert u.Keys == Matching(period, words, targets);
  }

  function Counter<A>(period: Table<A>, targets: A -> seq<string>): seq<string> -> nat {
    words => ListCount(period, words, targets)
  }

  /** The text `count_word_period` parses as the first day of the month:
      `"#{year}#{month}01"`, where a `nil` year or month interpolates as "". */
  function MonthStartText(year: Option<string>, month: Option<string>): (s: string)
    ensures |s| == |ToS(year)| + |ToS(month)| + 2 && s[|s| - 2..] == "01"
  {
    ToS(year) + ToS(month) + "01"
  }

  /** The hash `count_word_period` builds, one list after another: each list's count is
      stored under its first word. */
  function Tally(lists: seq<seq<string>>, count: seq<string> -> nat): (counts: map<Option<string>, nat>)
    ensures |counts| <= |lists|
    decreases |lists|
  {
    if |lists| == 0 then map[]
    else
      var last := lists[|lists| - 1];
      Tally(lists[..|lists| - 1], count)[First(last) := count(last)]
  }

  /** `lists[i]` is the last list whose first word is `key`. */
  predicate LastWithFirst(lists: seq<seq<string>>, i: int, key: Option<string>) {
    0 <= i < |lists| && First(lists[i]) == key &&
    forall j :: i < j < |lists| ==> First(lists[j]) != key
  }

  /** Every list's first word is a key of the hash. */
  lemma {:induction false} TallyHasEveryList(lists: seq<seq<string>>, count: seq<string> -> nat)
    ensures forall i :: 0 <= i < |lists| ==> First(lists[i]) in Tally(lists, count)
    decreases |lists|
  {
    if |lists| > 0 {
      var n := |lists| - 1;
      var init := lists[..n];
      TallyHasEveryList(init, count);
      forall i | 0 <= i < n
        ensures First(lists[i]) in Tally(lists, count)
      {
        assert init[i] == lists[i];
      }
    }
  }

  /** Under each key of the hash is the count of the last list with that first word: a
      later list with the same first word overwrites an earlier one. */
  lemma {:induction false} TallyLastWins(lists: seq<seq<string>>, count: seq<string> -> nat)
    ensures forall key :: key in Tally(lists, count) ==>
      exists i :: LastWithFirst(lists, i, key) && Tally(lists, count)[key] == count(lists[i])
    decreases |lists|
  {
    if |lists| > 0 {
      var n := |lists| - 1;
      var init := lists[..n];
      TallyLastWins(init, count);
      var counts := Tally(lists, count);
      forall key | key in counts
        ensures exists i :: LastWithFirst(lists, i, key) && counts[key] == count(lists[i])
      {
        if key == First(lists[n]) {
          assert LastWithFirst(lists, n, key);
        } else {
          var i :| LastWithFirst(init, i, key) && Tally(init, count)[key] == count(init[i]);
          assert init[i] == lists[i];
          assert LastWithFirst(lists, i, key);
        }
      }
    }
  }

  /** The hash has one key per list, the list's first word, and under each key the count of
      the last list that has it. */
  lemma TallyMeaning(lists: seq<seq<string>>, count: seq<string> -> nat)
    ensures forall i :: 0 <= i < |lists| ==> First(lists[i]) in Tally(lists, count)
    ensures forall key :: key in Tally(lists, count) ==>
      exists i :: LastWithFirst(lists, i, key) && Tally(lists, count)[key] == count(lists[i])
  {
    TallyHasEveryList(lists, count);
    TallyLastWins(lists, count);
  }

  /** The loop of `count_word_period`: for each list of synonyms, the number of records in
      `period` that match any of them is stored under the list's first word. */
  method CountLists<A>(period: Table<A>, lists: seq<seq<string>>, targets: A -> seq<string>)
    returns (counts: map<Option<string>, nat>)
    ensures counts == Tally(lists, Counter(period, targets))
  {
    counts := map[];
    var n := 0;
    while n < |lists|
      invariant n <= |lists|
      invariant counts == Tally(lists[..n], Counter(period, targets))
    {
      assert lists[..n + 1][..n] == lists[..n];
      counts := counts[First(lists[n]) := ListCount(period, lists[n], targets)];
      n := n + 1;
    }
    assert lists[..n] == lists;
  }
}
