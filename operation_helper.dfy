/** lib/operation_manage/application_helper.rb: `to_year`, `to_month`, `html_slice` and
    `query_params`. The HTML and URI escaping helpers and `set_match_tag` are not part of
    this model. */
module OperationHelper {
  import opened Wrappers
  import opened RubyCore

  /** `to_year(ym)`: the first four characters, kept only when their `to_i` lies in
      2000..3000. Such a value needs all four characters to be digits. */
  function ToYear(ym: string): (y: Option<string>)
    ensures y.Some? <==> 2000 <= ToI(ym[..Min(4, |ym|)]) <= 3000
    ensures y.Some? ==> |ym| >= 4 && y.value == ym[..4]
    ensures y.Some? ==> (forall i :: 0 <= i < 4 ==> IsDigit(ym[i]))
    ensures y.Some? ==> 2000 <= ToI(y.value) <= 3000
  {
    var year := ym[..Min(4, |ym|)];
    if 2000 <= ToI(year) <= 3000 then
      FourDigitsNeeded(year);
      assert |year| == 4;
      assert forall i :: 0 <= i < 4 ==> year[i] == ym[i];
      Some(year)
    else None
  }

  /** `to_month(ym)`: `ym[5, 2]`, which is `nil` when `ym` is shorter than five characters,
      kept only when its `to_i` lies in 1..12. */
  function ToMonth(ym: string): (m: Option<string>)
    ensures m.Some? <==> |ym| >= 5 && 1 <= ToI(ym[5..Min(7, |ym|)]) <= 12
    ensures m.Some? ==> |ym| >= 6 && m.value == ym[5..Min(7, |ym|)]
    ensures m.Some? ==> 1 <= |m.value| <= 2 && 1 <= ToI(m.value) <= 12
  {
    var month := if |ym| >= 5 then Some(ym[5..Min(7, |ym|)]) else None;
    if 1 <= NilToI(month) <= 12 then month else None
  }

  lemma DigitRunOf2012()
    ensures DigitRun("2012") == [2, 0, 1, 2]
  {
    var year := "2012";
    assert year[3..] == "2" && DigitRun(year[3..]) == [2];
    assert year[2..] == "12" && DigitRun(year[2..]) == [1, 2];
    assert year[1..] == "012" && DigitRun(year[1..]) == [0, 1, 2];
  }

  lemma ValueOf2012()
    ensures DigitsValue([2, 0, 1, 2]) == 2012
  {
    assert [2, 0, 1, 2][..3] == [2, 0, 1];
    assert [2, 0, 1][..2] == [2, 0];
    assert [2, 0][..1] == [2];
  }

  lemma ToIOf2012()
    ensures ToI("2012") == 2012
  {
    var year := "2012";
    assert !IsSpace(year[0]) && SkipSpace(year) == year;
    assert year[0] != '-' && year[0] != '+';
    assert Unprefixed(year) == year;
    DigitRunOf2012();
    ValueOf2012();
  }

  lemma ToIOf01()
    ensures ToI("01") == 1
  {
    var month := "01";
    assert !IsSpace(month[0]) && SkipSpace(month) == month;
    assert month[0] != '-' && month[0] != '+';
    assert Unprefixed(month) == month;
    assert month[1..] == "1" && DigitRun(month[1..]) == [1];
    assert DigitsValue([0, 1]) == 1 by {
      assert [0, 1][..1] == [0];
    }
  }

  /** The year of a "yyyy-mm" parameter. */
  lemma YearExample()
    ensures ToYear("2012-01") == Some("2012")
  {
    assert "2012-01"[..4] == "2012";
    ToIOf2012();
  }

  /** The month of a "yyyy-mm" parameter. */
  lemma MonthExample()
    ensures ToMonth("2012-01") == Some("01")
  {
    assert "2012-01"[5..7] == "01";
    ToIOf01();
  }

  const HTML_SLICE_LIMIT := 100

  /** `html_slice(str)`: a string of up to 100 characters is returned as it is; a longer one
      becomes its first 100 characters followed by " ...". */
  function HtmlSlice(str: string): (r: string)
    ensures |str| <= HTML_SLICE_LIMIT ==> r == str
    ensures |str| > HTML_SLICE_LIMIT ==> |r| == 104 && r == str[..100] + " ..."
  {
    if |str| <= HTML_SLICE_LIMIT then str
    else PrefixBefore(str, HTML_SLICE_LIMIT) + " ..."
  }

  /** Slicing a sliced string again changes nothing: the result keeps the same first 100
      characters and the same tail. */
  lemma HtmlSliceIdempotent(str: string)
    ensures HtmlSlice(HtmlSlice(str)) == HtmlSlice(str)
  {
    if |str| > HTML_SLICE_LIMIT {
      var r := HtmlSlice(str);
      assert r[..100] == str[..100];
    }
  }

  /** The pieces of `s` between occurrences of `sep`, empty pieces included. */
  function SplitOn(s: string, sep: char): (parts: seq<string>)
    ensures |parts| >= 1
  {
    if |s| == 0 then [""]
    else
      var rest := SplitOn(s[1..], sep);
      if s[0] == sep then [""] + rest else [[s[0]] + rest[0]] + rest[1..]
  }

  lemma {:induction false} SplitOnAfter(a: string, b: string, sep: char)
    requires sep !in a
    ensures SplitOn(a + [sep] + b, sep) == [a] + SplitOn(b, sep)
  {
    if |a| == 0 {
      assert a + [sep] + b == [sep] + b;
    } else {
      SplitOnAfter(a[1..], b, sep);
      assert (a + [sep] + b)[1..] == a[1..] + [sep] + b;
      assert (a + [sep] + b)[0] == a[0] != sep;
      assert [a[0]] + a[1..] == a;
    }
  }

  lemma {:induction false} SplitOnWithout(a: string, sep: char)
    requires sep !in a
    ensures SplitOn(a, sep) == [a]
  {
    if |a| > 0 {
      SplitOnWithout(a[1..], sep);
      assert [a[0]] + a[1..] == a;
    }
  }

  /** Three pieces without '&', joined with '&', split back into those three pieces. */
  lemma JoinedSplit(a: string, b: string, c: string)
    ensures '&' !in a && '&' !in b && '&' !in c ==> SplitOn(a + ['&'] + (b + ['&'] + c), '&') == [a, b, c]
  {
    if '&' !in a && '&' !in b && '&' !in c {
      SplitOnAfter(a, b + ['&'] + c, '&');
      SplitOnAfter(b, c, '&');
      SplitOnWithout(c, '&');
    }
  }

  /** `query_params(params)`: the three search parameters joined as a query string, a
      missing parameter interpolating as the empty string. When no value holds '&',
      splitting the query string on '&' gives back the three `name=value` pairs, each with
      exactly the value passed in. */
  function QueryParams(q: Option<string>, startTime: Option<string>, endTime: Option<string>): (r: string)
    ensures '&' !in ToS(q) && '&' !in ToS(startTime) && '&' !in ToS(endTime) ==>
      SplitOn(r, '&') == ["q=" + ToS(q), "start_time=" + ToS(startTime), "end_time=" + ToS(endTime)]
  {
    var a, b, c := "q=" + ToS(q), "start_time=" + ToS(startTime), "end_time=" + ToS(endTime);
    JoinedSplit(a, b, c);
    a + ['&'] + (b + ['&'] + c)
  }
}
