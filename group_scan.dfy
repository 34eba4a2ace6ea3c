/** The fallback for a missing group name: `scan_community(title)` (event_manage) and
    `scan_team(summary)` (operation_manage) both take the first match of `/^(.*?M)/` for a
    marker word M and return its text, or `nil` when there is no match. In a Ruby regular
    expression `^` matches at the start of the string and after every newline, and `.` matches
    any character except a newline. */
module GroupScan {
  import opened Wrappers
  import opened RubyCore

  const COMMUNITY_MARKER := "グループ"
  const TEAM_MARKER := "チーム"

  /** `is_valid_community?` / `is_valid_team?`: only `nil` and the literal "Null" are
      rejected; every other string, the empty one included, is a usable name. */
  predicate IsValidGroup(g: Option<string>) {
    g.Some? && g.value != "Null"
  }

  lemma InvalidGroups(g: Option<string>)
    ensures !IsValidGroup(g) <==> g == None || g == Some("Null")
    ensures IsValidGroup(Some("")) && IsValidGroup(Some("Aチーム"))
  {
  }

  predicate IsLineStart(s: string, p: nat)
    requires p <= |s|
  {
    p == 0 || s[p - 1] == '\n'
  }

  /** No newline among `s[lo..hi]`. */
  predicate OneLine(s: string, lo: nat, hi: nat)
    requires lo <= hi <= |s|
  {
    forall x :: lo <= x < hi ==> s[x] != '\n'
  }

  /** The lazy `.*?M` tried from index `k`: first M right at `k`, then one more non-newline
      character at a time. The result is the index at which M starts. */
  function LazyMatch(s: string, m: string, k: nat): (i: Option<nat>)
    requires k <= |s|
    ensures i.Some? ==> k <= i.value <= |s| && OccursAt(s, m, i.value) && OneLine(s, k, i.value)
    ensures i.Some? ==> forall j :: k <= j < i.value ==> !OccursAt(s, m, j)
    ensures i.None? ==> forall j :: k <= j <= |s| && OneLine(s, k, j) ==> !OccursAt(s, m, j)
    decreases |s| - k
  {
    if OccursAt(s, m, k) then Some(k)
    else if k == |s| || s[k] == '\n' then None
    else LazyMatch(s, m, k + 1)
  }

  /** The regex engine's search for a match, starting at index `p`: `^` must hold there and
      the lazy part must succeed; otherwise the next index is tried. */
  function ScanFrom(s: string, m: string, p: nat): Option<string>
    requires p <= |s|
    decreases |s| - p
  {
    var here := if IsLineStart(s, p) then LazyMatch(s, m, p) else None;
    if here.Some? then Some(s[p..here.value + |m|])
    else if p == |s| then None
    else ScanFrom(s, m, p + 1)
  }

  /** `text.scan(/^(.*?(M))/).flatten.shift`: the first element of the flattened list of
      groups is the outer group of the first match. */
  function Scan(text: string, m: string): (r: Option<string>)
    ensures r.Some? ==> |m| <= |r.value| && r.value[|r.value| - |m|..] == m
  {
    ScanFromEndsWithMarker(text, m, 0);
    ScanFrom(text, m, 0)
  }

  lemma {:induction false} ScanFromEndsWithMarker(s: string, m: string, p: nat)
    requires p <= |s|
    ensures ScanFrom(s, m, p).Some? ==>
      var r := ScanFrom(s, m, p).value;
      |m| <= |r| && r[|r| - |m|..] == m
    decreases |s| - p
  {
    var here := if IsLineStart(s, p) then LazyMatch(s, m, p) else None;
    if here.None? && p < |s| {
      ScanFromEndsWithMarker(s, m, p + 1);
    }
  }

  /** The first index at or after `k` where `m` occurs. */
  function FirstMarker(s: string, m: string, k: nat): (i: Option<nat>)
    requires k <= |s|
    ensures i.Some? ==> k <= i.value <= |s| && OccursAt(s, m, i.value)
    ensures i.Some? ==> forall j :: k <= j < i.value ==> !OccursAt(s, m, j)
    ensures i.None? ==> forall j :: k <= j <= |s| ==> !OccursAt(s, m, j)
    decreases |s| - k
  {
    if OccursAt(s, m, k) then Some(k)
    else if k == |s| then None
    else FirstMarker(s, m, k + 1)
  }

  /** The start of the line that holds index `i`. */
  function LineStart(s: string, i: nat): (p: nat)
    requires i <= |s|
    ensures p <= i && IsLineStart(s, p) && OneLine(s, p, i)
  {
    if i == 0 || s[i - 1] == '\n' then i else LineStart(s, i - 1)
  }

  lemma {:induction false} ScanFromSkips(s: string, m: string, p: nat, target: nat, i: nat)
    requires p <= target <= i <= |s|
    requires target == LineStart(s, i)
    requires forall j :: 0 <= j < i ==> !OccursAt(s, m, j)
    requires OccursAt(s, m, i)
    ensures ScanFrom(s, m, p) == Some(s[target..i + |m|])
    decreases target - p
  {
    if p < target {
      if IsLineStart(s, p) {
        // The line that starts at p ends with a newline before `target`, so a match
        // would have to start before i.
        assert s[target - 1] == '\n';
        assert !OneLine(s, p, target);
        assert LazyMatch(s, m, p).None?;
      }
      ScanFromSkips(s, m, p + 1, target, i);
    } else {
      var found := LazyMatch(s, m, p);
      assert OneLine(s, p, i);
      assert found.value == i;
    }
  }

  /** The scan returns the text from the start of the line that holds the first occurrence
      of the marker up to and including that occurrence, and `nil` when the marker does not
      occur at all. */
  lemma ScanFindsFirstMarker(text: string, m: string)
    ensures FirstMarker(text, m, 0).None? ==> Scan(text, m) == None
    ensures FirstMarker(text, m, 0).Some? ==>
      var i := FirstMarker(text, m, 0).value;
      Scan(text, m) == Some(text[LineStart(text, i)..i + |m|])
  {
    var first := FirstMarker(text, m, 0);
    if first.Some? {
      ScanFromSkips(text, m, 0, LineStart(text, first.value), first.value);
    } else {
      ScanFromFails(text, m, 0);
    }
  }

  lemma {:induction false} ScanFromFails(s: string, m: string, p: nat)
    requires p <= |s|
    requires forall j :: 0 <= j <= |s| ==> !OccursAt(s, m, j)
    ensures ScanFrom(s, m, p) == None
    decreases |s| - p
  {
    if IsLineStart(s, p) {
      assert LazyMatch(s, m, p).None?;
    }
    if p < |s| {
      ScanFromFails(s, m, p + 1);
    }
  }

  /** `r` ends with the marker `m`, and before it there is neither a newline nor an earlier
      occurrence of `m`. */
  predicate EndsAtFirstMarker(r: string, m: string) {
    |r| >= |m| && r[|r| - |m|..] == m &&
    (forall x :: 0 <= x < |r| - |m| ==> r[x] != '\n') &&
    (forall j :: 0 <= j < |r| - |m| ==> !OccursAt(r, m, j))
  }

  /** A text without the marker, and only such a text, gives `nil`. */
  lemma ScanNilExactlyWithoutMarker(text: string, m: string)
    ensures Scan(text, m).None? <==> !Contains(text, m)
  {
    ScanFindsFirstMarker(text, m);
    match FirstMarker(text, m, 0)
    case None =>
    case Some(i) =>
      assert Contains(text, m);
  }

  /** What `scan_*` returns when it returns something: a piece of one line that ends with the
      marker and holds no earlier occurrence of it. */
  lemma ScanResult(text: string, m: string)
    requires Scan(text, m).Some?
    ensures EndsAtFirstMarker(Scan(text, m).value, m)
  {
    ScanFindsFirstMarker(text, m);
    var first := FirstMarker(text, m, 0);
    assert first.Some?;
    var i := first.value;
    LineUpToFirstMarker(text, m, LineStart(text, i), i);
  }

  lemma LineUpToFirstMarker(text: string, m: string, p: nat, i: nat)
    requires p <= i <= |text| && OneLine(text, p, i)
    requires OccursAt(text, m, i) && forall j :: 0 <= j < i ==> !OccursAt(text, m, j)
    ensures EndsAtFirstMarker(text[p..i + |m|], m)
  {
    var r := text[p..i + |m|];
    assert r[|r| - |m|..] == text[i..i + |m|];
    forall j | 0 <= j < |r| - |m|
      ensures !OccursAt(r, m, j)
    {
      if OccursAt(r, m, j) {
        SliceOfSlice(text, p, i + |m|, j, j + |m|);
        assert OccursAt(text, m, p + j);
      }
    }
    forall x | 0 <= x < |r| - |m|
      ensures r[x] != '\n'
    {
      assert r[x] == text[p + x];
    }
  }

  lemma SliceOfSlice<T>(s: seq<T>, lo: nat, hi: nat, a: nat, b: nat)
    requires lo <= hi <= |s| && a <= b <= hi - lo
    ensures s[lo..hi][a..b] == s[lo + a..lo + b]
  {
    forall x | 0 <= x < b - a
      ensures s[lo..hi][a..b][x] == s[lo + a..lo + b][x]
    {
      assert s[lo..hi][a..b][x] == s[lo..hi][a + x] == s[lo + a + x];
    }
    assert s[lo..hi][a..b] == s[lo + a..lo + b];
  }

  /** A name found by the scan is never the literal "Null", so the fallback always yields a
      valid name or `nil`. */
  lemma ScannedNameIsValid(text: string, m: string)
    requires m == COMMUNITY_MARKER || m == TEAM_MARKER
    requires Scan(text, m).Some?
    ensures IsValidGroup(Scan(text, m))
  {
    ScanResult(text, m);
    var r := Scan(text, m).value;
    assert r[|r| - 1] == r[|r| - |m|..][|m| - 1] == m[|m| - 1];
  }

  /** The name heads the summary in the source's own example: "Aチーム Pat 今日も良い天気。"
      gives "Aチーム"; a second team later in the text does not change that. */
  lemma TeamExample()
    ensures Scan("Aチーム Pat Bチームのメンバーが怒り気味。", TEAM_MARKER) == Some("Aチーム")
  {
    var s := "Aチーム Pat Bチームのメンバーが怒り気味。";
    assert s[0] != TEAM_MARKER[0];
    assert s[1] == 'チ' && s[2] == 'ー' && s[3] == 'ム';
    assert s[1..4] == TEAM_MARKER;
    assert FirstMarker(s, TEAM_MARKER, 0) == Some(1);
    assert LineStart(s, 1) == 0;
    ScanFindsFirstMarker(s, TEAM_MARKER);
    assert s[0..4] == "Aチーム";
  }
}
