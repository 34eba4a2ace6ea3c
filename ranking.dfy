/** The two orderings of search results: `get_top_*` (groups by number of events) and
    `paginate` (records by votes, then date). Both take the records to rank as an argument
    and leave the table alone. */
module Ranking {
  import opened Wrappers
  import opened RubyCore
  import opened Store

  /** `SHOW_EVENTS` in config/config.rb: records per page. */
  const SHOW_EVENTS := 20

  /** The IDs of the records whose group column holds `g`. */
  function Members<A>(t: Table<A>, group: A -> Option<string>, g: Option<string>): set<string> {
    set k | k in t && group(t[k].attrs) == g
  }

  /** `events.group(column)`: each value the column takes, with `n_sub_records`, the number
      of records that hold it. */
  function Group<A>(t: Table<A>, group: A -> Option<string>): (groups: map<Option<string>, nat>)
    ensures forall g :: g in groups <==> exists k :: k in t && group(t[k].attrs) == g
    ensures forall g :: g in groups ==> groups[g] == |Members(t, group, g)| && groups[g] > 0
  {
    var values := set k | k in t :: group(t[k].attrs);
    var groups := map g | g in values :: |Members(t, group, g)|;
    assert forall g :: g in groups ==> groups[g] > 0 by {
      forall g | g in groups
        ensures groups[g] > 0
      {
        var k :| k in t && group(t[k].attrs) == g;
        assert k in Members(t, group, g);
      }
    }
    groups
  }

  /** The groups `get_top_*` ranks: all of them, or all but `nil` after `hash.delete(nil)`. */
  function Eligible<A>(t: Table<A>, group: A -> Option<string>, dropNil: bool): map<Option<string>, nat> {
    if dropNil then Group(t, group) - {None} else Group(t, group)
  }

  /** Group `g` is among the pairs listed. */
  predicate Listed(top: seq<(Option<string>, nat)>, g: Option<string>) {
    exists j :: 0 <= j < |top| && top[j].0 == g
  }

  /** What `hash.sort_by { |k, v| v }.reverse.slice(0...limit)` yields for the hash `counts`,
      whatever order it gives to equal counts: as many pairs as the slice keeps, each a group
      with its own count, counts never increasing, no group twice, and no group left out
      with a higher count than one listed. */
  predicate IsTop(counts: map<Option<string>, nat>, limit: int, top: seq<(Option<string>, nat)>) {
    |top| == KeptLength(|counts|, limit) &&
    (forall i :: 0 <= i < |top| ==> top[i].0 in counts && top[i].1 == counts[top[i].0]) &&
    (forall i, j :: 0 <= i < j < |top| ==> top[i].1 >= top[j].1 && top[i].0 != top[j].0) &&
    (forall g, i :: g in counts && !Listed(top, g) && 0 <= i < |top| ==> counts[g] <= top[i].1)
  }

  lemma {:induction false} LargestExists(m: map<Option<string>, nat>, keys: set<Option<string>>)
    requires keys != {} && keys <= m.Keys
    ensures exists g :: g in keys && forall h :: h in keys ==> m[h] <= m[g]
    decreases keys
  {
    var g0 :| g0 in keys;
    if keys == {g0} {
      assert forall h :: h in keys ==> h == g0;
    } else {
      var rest := keys - {g0};
      LargestExists(m, rest);
      var g1 :| g1 in rest && forall h :: h in rest ==> m[h] <= m[g1];
      var best := if m[g0] > m[g1] then g0 else g1;
      assert forall h :: h in keys ==> m[h] <= m[best];
    }
  }

  /** `hash.sort_by { |k, v| v }.reverse`: every pair of `counts`, largest count first. */
  method SortByCount(counts: map<Option<string>, nat>) returns (sorted: seq<(Option<string>, nat)>)
    ensures |sorted| == |counts|
    ensures forall i :: 0 <= i < |sorted| ==> sorted[i].0 in counts && sorted[i].1 == counts[sorted[i].0]
    ensures forall i, j :: 0 <= i < j < |sorted| ==> sorted[i].1 >= sorted[j].1 && sorted[i].0 != sorted[j].0
  {
    sorted := [];
    var rest := counts;
    while |rest| > 0
      invariant forall g :: g in rest ==> g in counts && rest[g] == counts[g]
      invariant forall i :: 0 <= i < |sorted| ==>
        sorted[i].0 in counts && sorted[i].1 == counts[sorted[i].0] && sorted[i].0 !in rest
      invariant forall i, j :: 0 <= i < j < |sorted| ==> sorted[i].1 >= sorted[j].1 && sorted[i].0 != sorted[j].0
      invariant forall g, i :: g in rest && 0 <= i < |sorted| ==> rest[g] <= sorted[i].1
      invariant |sorted| + |rest| == |counts|
      decreases |rest|
    {
      LargestExists(rest, rest.Keys);
      var g :| g in rest && forall h :: h in rest ==> rest[h] <= rest[g];
      sorted := sorted + [(g, rest[g])];
      assert (rest - {g}).Keys == rest.Keys - {g};
      rest := rest - {g};
    }
  }

  /** A sorted list of every pair, cut by `slice(0...limit)`, is a top list. */
  lemma SliceOfSortedIsTop(counts: map<Option<string>, nat>, sorted: seq<(Option<string>, nat)>, limit: int)
    requires |sorted| == |counts|
    requires forall i :: 0 <= i < |sorted| ==> sorted[i].0 in counts && sorted[i].1 == counts[sorted[i].0]
    requires forall i, j :: 0 <= i < j < |sorted| ==> sorted[i].1 >= sorted[j].1 && sorted[i].0 != sorted[j].0
    ensures IsTop(counts, limit, PrefixBefore(sorted, limit))
  {
    var top := PrefixBefore(sorted, limit);
    forall g, i | g in counts && !Listed(top, g) && 0 <= i < |top|
      ensures counts[g] <= top[i].1
    {
      var j := IndexIn(counts, sorted, g);
      assert j >= |top|;
    }
  }

  /** Every group of `counts` has a place in a list that holds |counts| distinct groups. */
  lemma IndexIn(counts: map<Option<string>, nat>, sorted: seq<(Option<string>, nat)>, g: Option<string>)
    returns (j: nat)
    requires |sorted| == |counts|
    requires forall i :: 0 <= i < |sorted| ==> sorted[i].0 in counts
    requires forall i, j :: 0 <= i < j < |sorted| ==> sorted[i].0 != sorted[j].0
    requires g in counts
    ensures j < |sorted| && sorted[j].0 == g
  {
    var listed := set i | 0 <= i < |sorted| :: sorted[i].0;
    if g !in listed {
      DistinctCount(sorted);
      assert listed <= counts.Keys - {g};
      assert |listed| <= |counts.Keys - {g}| by {
        SubsetSize(listed, counts.Keys - {g});
      }
      assert false;
    }
    j :| 0 <= j < |sorted| && sorted[j].0 == g;
  }

  lemma SubsetSize<T>(a: set<T>, b: set<T>)
    requires a <= b
    ensures |a| <= |b|
  {
    assert b == a + (b - a);
  }

  /** A list of distinct groups names as many groups as it is long. */
  lemma {:induction false} DistinctCount(sorted: seq<(Option<string>, nat)>)
    requires forall i, j :: 0 <= i < j < |sorted| ==> sorted[i].0 != sorted[j].0
    ensures |set i | 0 <= i < |sorted| :: sorted[i].0| == |sorted|
    decreases |sorted|
  {
    if |sorted| > 0 {
      var init := sorted[..|sorted| - 1];
      DistinctCount(init);
      var last := sorted[|sorted| - 1].0;
      var before := set i | 0 <= i < |init| :: init[i].0;
      assert (set i | 0 <= i < |sorted| :: sorted[i].0) == before + {last} by {
        forall x | x in before ensures x in set i | 0 <= i < |sorted| :: sorted[i].0 {
          var i :| 0 <= i < |init| && init[i].0 == x;
          assert sorted[i].0 == x;
        }
      }
      assert last !in before;
    }
  }

  /** `get_top_community` / `get_top_team` (`dropNil`) and `get_top_organizer` /
      `get_top_host_person`: the group records are copied into a hash in an `each` loop, the
      `nil` group is deleted where the method does so, and the hash is sorted by count,
      reversed and cut to `limit` pairs. */
  method TopGroups<A>(t: Table<A>, group: A -> Option<string>, dropNil: bool, limit: int)
    returns (top: seq<(Option<string>, nat)>)
    ensures IsTop(Eligible(t, group, dropNil), limit, top)
  {
    var groups := Group(t, group);
    var hash: map<Option<string>, nat> := map[];
    var pending := groups.Keys;
    while pending != {}
      invariant pending <= groups.Keys
      invariant forall g :: g in hash <==> g in groups && g !in pending
      invariant forall g :: g in hash ==> hash[g] == groups[g]
      decreases pending
    {
      var g :| g in pending;
      hash := hash[g := groups[g]];
      pending := pending - {g};
    }
    assert hash == groups;
    if dropNil {
      hash := hash - {None};
    }
    var sorted := SortByCount(hash);
    SliceOfSortedIsTop(hash, sorted, limit);
    top := PrefixBefore(sorted, limit);
  }

  /** Every listed group holds at least one of the ranked records, and `nil` is listed only
      when it is kept. */
  lemma TopGroupsAreReal<A>(t: Table<A>, group: A -> Option<string>, dropNil: bool, limit: int,
                            top: seq<(Option<string>, nat)>)
    requires IsTop(Eligible(t, group, dropNil), limit, top)
    ensures forall i :: 0 <= i < |top| ==> top[i].1 > 0 && top[i].1 == |Members(t, group, top[i].0)|
    ensures dropNil ==> !Listed(top, None)
  {
  }

  /** The example of spec/lib/events_spec.rb: counts {A: 3, B: 2, C: 1} cut to one pair give
      [[A, 3]], whatever the tie order. */
  lemma TopOneExample(top: seq<(Option<string>, nat)>)
    requires IsTop(map[Some("A") := 3, Some("B") := 2, Some("C") := 1], 1, top)
    ensures top == [(Some("A"), 3)]
  {
    var counts := map[Some("A") := 3, Some("B") := 2, Some("C") := 1];
    assert |counts| == 3 by {
      assert counts.Keys == {Some("A"), Some("B"), Some("C")};
    }
    assert |top| == 1;
    var g, c := top[0].0, top[0].1;
    assert g in counts.Keys && c == counts[g];
    assert !Listed(top, Some("A")) ==> 3 <= c;
    assert Listed(top, Some("A")) ==> g == Some("A");
  }

  // ---- paginate ----

  /** String order by character codes, as Ruby compares strings of one encoding. */
  predicate LexLess(a: string, b: string)
    decreases |a|
  {
    if |a| == 0 then |b| > 0
    else if |b| == 0 then false
    else a[0] < b[0] || (a[0] == b[0] && LexLess(a[1..], b[1..]))
  }

  lemma {:induction false} LexLessIrreflexive(a: string)
    ensures !LexLess(a, a)
    decreases |a|
  {
    if |a| > 0 {
      LexLessIrreflexive(a[1..]);
    }
  }

  lemma {:induction false} LexLessTransitive(a: string, b: string, c: string)
    requires LexLess(a, b) && LexLess(b, c)
    ensures LexLess(a, c)
    decreases |a|
  {
    if |a| > 0 && a[0] == b[0] && b[0] == c[0] {
      LexLessTransitive(a[1..], b[1..], c[1..]);
    }
  }

  lemma {:induction false} LexLessTotal(a: string, b: string)
    requires a != b
    ensures LexLess(a, b) || LexLess(b, a)
    decreases |a|
  {
    if |a| > 0 && |b| > 0 && a[0] == b[0] {
      assert a == [a[0]] + a[1..] && b == [b[0]] + b[1..];
      LexLessTotal(a[1..], b[1..]);
    }
  }

  /** The order of `paginate`: more votes first, then the later event; equal votes and dates
      fall back to the event ID. */
  predicate Before<A>(t: Table<A>, datetime: A -> int, j: string, k: string)
    requires j in t && k in t
  {
    var a, b := t[j], t[k];
    a.good > b.good ||
    (a.good == b.good && datetime(a.attrs) > datetime(b.attrs)) ||
    (a.good == b.good && datetime(a.attrs) == datetime(b.attrs) && LexLess(j, k))
  }

  lemma BeforeIrreflexive<A>(t: Table<A>, datetime: A -> int, k: string)
    requires k in t
    ensures !Before(t, datetime, k, k)
  {
    LexLessIrreflexive(k);
  }

  lemma BeforeTransitive<A>(t: Table<A>, datetime: A -> int, i: string, j: string, k: string)
    requires i in t && j in t && k in t
    requires Before(t, datetime, i, j) && Before(t, datetime, j, k)
    ensures Before(t, datetime, i, k)
  {
    if t[i].good == t[j].good == t[k].good && datetime(t[i].attrs) == datetime(t[j].attrs) == datetime(t[k].attrs) {
      LexLessTransitive(i, j, k);
    }
  }

  lemma BeforeTotal<A>(t: Table<A>, datetime: A -> int, j: string, k: string)
    requires j in t && k in t && j != k
    ensures Before(t, datetime, j, k) || Before(t, datetime, k, j)
  {
    LexLessTotal(j, k);
  }

  /** `order` lists every record of `t` exactly once, in `Before` order. */
  predicate IsRanking<A>(t: Table<A>, datetime: A -> int, order: seq<string>) {
    (forall i :: 0 <= i < |order| ==> order[i] in t) &&
    (forall k :: k in t ==> k in order) &&
    (forall i, j :: 0 <= i < j < |order| ==> order[i] in t && order[j] in t && Before(t, datetime, order[i], order[j]))
  }

  lemma {:induction false} FirstExists<A>(t: Table<A>, datetime: A -> int, rest: set<string>)
    requires rest != {} && rest <= t.Keys
    ensures exists k :: k in rest && forall j :: j in rest && j != k ==> Before(t, datetime, k, j)
    decreases rest
  {
    var x :| x in rest;
    var others := rest - {x};
    if others == {} {
      assert forall j :: j in rest && j != x ==> j in others;
    } else {
      FirstExists(t, datetime, others);
      var y :| y in others && forall j :: j in others && j != y ==> Before(t, datetime, y, j);
      BeforeTotal(t, datetime, x, y);
      if Before(t, datetime, x, y) {
        forall j | j in rest && j != x
          ensures Before(t, datetime, x, j)
        {
          if j != y {
            BeforeTransitive(t, datetime, x, y, j);
          }
        }
      } else {
        assert forall j :: j in rest && j != y ==> Before(t, datetime, y, j);
      }
    }
  }

  /** The sort `paginate` asks of the engine, as repeated choice of the first remaining
      record. */
  method Rank<A>(t: Table<A>, datetime: A -> int) returns (order: seq<string>)
    ensures IsRanking(t, datetime, order)
  {
    order := [];
    var rest := t.Keys;
    while rest != {}
      invariant rest <= t.Keys
      invariant forall i :: 0 <= i < |order| ==> order[i] in t && order[i] !in rest
      invariant forall k :: k in t ==> k in rest || k in order
      invariant forall i, j :: 0 <= i < j < |order| ==> Before(t, datetime, order[i], order[j])
      invariant forall i, k :: 0 <= i < |order| && k in rest ==> Before(t, datetime, order[i], k)
      decreases rest
    {
      FirstExists(t, datetime, rest);
      var k :| k in rest && forall j :: j in rest && j != k ==> Before(t, datetime, k, j);
      order := order + [k];
      rest := rest - {k};
    }
  }

  /** Two rankings of the same records are the same list: `Before` leaves no tie. */
  lemma {:induction false} RankingUnique<A>(t: Table<A>, datetime: A -> int, o1: seq<string>, o2: seq<string>)
    requires IsRanking(t, datetime, o1) && IsRanking(t, datetime, o2)
    ensures o1 == o2
    decreases |o1|
  {
    if |o1| == 0 {
      assert |o2| == 0;
    } else {
      assert |o2| > 0 by {
        assert o1[0] in o2;
      }
      var x := o1[0];
      if o2[0] != x {
        var i :| 0 <= i < |o1| && o1[i] == o2[0];
        var j :| 0 <= j < |o2| && o2[j] == x;
        BeforeAsymmetric(t, datetime, x, o2[0]);
        assert false;
      }
      var u := t - {x};
      RankingTail(t, datetime, o1);
      RankingTail(t, datetime, o2);
      RankingUnique(u, datetime, o1[1..], o2[1..]);
      assert o1 == [x] + o1[1..] && o2 == [x] + o2[1..];
    }
  }

  lemma BeforeAsymmetric<A>(t: Table<A>, datetime: A -> int, j: string, k: string)
    requires j in t && k in t && Before(t, datetime, j, k)
    ensures !Before(t, datetime, k, j)
  {
    if Before(t, datetime, k, j) {
      BeforeTransitive(t, datetime, j, k, j);
      BeforeIrreflexive(t, datetime, j);
    }
  }

  /** Without its first record, a ranking ranks the other records. */
  lemma RankingTail<A>(t: Table<A>, datetime: A -> int, order: seq<string>)
    requires |order| > 0 && IsRanking(t, datetime, order)
    ensures IsRanking(t - {order[0]}, datetime, order[1..])
  {
    var u := t - {order[0]};
    forall i | 0 <= i < |order[1..]|
      ensures order[1..][i] in u
    {
      assert Before(t, datetime, order[0], order[i + 1]);
      BeforeIrreflexive(t, datetime, order[0]);
    }
    forall k | k in u
      ensures k in order[1..]
    {
      var i :| 0 <= i < |order| && order[i] == k;
      assert order[1..][i - 1] == k;
    }
  }

  /** Records `(page - 1) * 20` up to `page * 20` of a ranking; a page past the end is empty. */
  function PageOf(order: seq<string>, page: int): (r: seq<string>)
    requires page >= 1
    ensures |r| == if (page - 1) * SHOW_EVENTS >= |order| then 0
                   else Min(SHOW_EVENTS, |order| - (page - 1) * SHOW_EVENTS)
    ensures forall i :: 0 <= i < |r| ==> r[i] == order[(page - 1) * SHOW_EVENTS + i]
  {
    var lo := (page - 1) * SHOW_EVENTS;
    if lo >= |order| then [] else order[lo..Min(lo + SHOW_EVENTS, |order|)]
  }

  /** `paginate(events, page: page)`: a missing page is page 1; the records are ranked by
      votes and date, and the requested page of that ranking is returned. A page below 1 is
      refused by the engine. */
  method Paginate<A>(t: Table<A>, datetime: A -> int, page: Option<int>) returns (r: Option<seq<string>>)
    ensures r.None? <==> page.GetOr(1) < 1
    ensures r.Some? ==> forall order :: IsRanking(t, datetime, order) ==> r.value == PageOf(order, page.GetOr(1))
  {
    var p := page.GetOr(1);
    if p < 1 {
      return None;
    }
    var order := Rank(t, datetime);
    forall other | IsRanking(t, datetime, other)
      ensures other == order
    {
      RankingUnique(t, datetime, other, order);
    }
    r := Some(PageOf(order, p));
  }
}
