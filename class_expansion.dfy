/** The core-class extensions: `blank?` on `nil` and on strings (lib/class_expansion.rb and
    lib/event_manage/class_expansion.rb) and `String#truncate`
    (lib/event_manage/class_expansion.rb). */
module ClassExpansion {
  import opened Wrappers
  import opened RubyCore

  /** `nil.blank?` is always true; `String#blank?` looks only at the size, so a string
      is blank exactly when it is empty. */
  function Blank(s: Option<string>): (b: bool)
    ensures b <==> s == None || s == Some("")
  {
    match s
    case None => true
    case Some(str) => !(|str| > 0)
  }

  /** White space counts as content: only `nil` and the empty string are blank. */
  lemma OnlySizeMatters(str: string)
    ensures Blank(None) && Blank(Some(""))
    ensures |str| > 0 ==> !Blank(Some(str))
    ensures !Blank(Some(" "))
  {
  }

  /** The options both `truncate`s accept: `opts[:limit]` and `opts[:omission]`. */
  datatype TruncateOptions = TruncateOptions(limit: Option<int>, omission: Option<string>)

  const NO_OPTIONS := TruncateOptions(None, None)
  const DEFAULT_OMISSION := "..."
  const STRING_TRUNCATE_LIMIT := 30

  /** The body both `truncate`s share once their defaults are filled in: a text longer than
      `limit` becomes `text[0..limit - omission.size] + omission`. That range includes its
      end index, so the kept part is one character longer than `limit` leaves room for. */
  function TruncateText(text: string, limit: int, omission: string): (r: string)
    ensures |text| <= limit ==> r == text
    ensures |text| > limit ==>
      |omission| <= |r| <= |text| + |omission| && r == text[..|r| - |omission|] + omission
    ensures |text| > limit && limit >= |omission| ==>
      |r| == limit + 1 && r == text[..limit - |omission| + 1] + omission
  {
    if |text| > limit then PrefixThrough(text, limit - |omission|) + omission else text
  }

  /** Once the limit leaves room for the omission, truncating a truncated text changes
      nothing more. */
  lemma TruncateTextIdempotent(text: string, limit: int, omission: string)
    requires limit >= |omission|
    ensures TruncateText(TruncateText(text, limit, omission), limit, omission)
         == TruncateText(text, limit, omission)
  {
    var r := TruncateText(text, limit, omission);
    if |text| > limit {
      var keep := limit - |omission| + 1;
      assert r[..keep] == text[..keep];
    }
  }

  /** `String#truncate(opts)`: limit 30 and omission "..." unless the options say otherwise. */
  function StringTruncate(s: string, opts: TruncateOptions): (r: string)
    ensures |s| <= opts.limit.GetOr(STRING_TRUNCATE_LIMIT) ==> r == s
    ensures |s| > opts.limit.GetOr(STRING_TRUNCATE_LIMIT) ==>
      var omission := opts.omission.GetOr(DEFAULT_OMISSION);
      |omission| <= |r| <= |s| + |omission| && r == s[..|r| - |omission|] + omission
  {
    TruncateText(s, opts.limit.GetOr(STRING_TRUNCATE_LIMIT), opts.omission.GetOr(DEFAULT_OMISSION))
  }

  /** With no options a string of up to 30 characters is kept, and a longer one becomes its
      first 28 characters and "...", 31 characters in all. */
  lemma StringTruncateDefaults(s: string)
    ensures |s| <= 30 ==> StringTruncate(s, NO_OPTIONS) == s
    ensures |s| > 30 ==> StringTruncate(s, NO_OPTIONS) == s[..28] + "..."
    ensures |s| > 30 ==> |StringTruncate(s, NO_OPTIONS)| == 31
  {
  }
}
