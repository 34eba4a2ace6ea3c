/** lib/event_manage/application_helper.rb: `truncate` and the `to_s` step of
    `summary_escape`. The HTML escaping and match highlighting are not part of this model. */
module EventHelper {
  import opened Wrappers
  import opened RubyCore
  import opened ClassExpansion

  const TRUNCATE_LIMIT := 100

  /** `truncate(text, opts)`: limit 100 and omission "..." unless the options say otherwise. */
  function Truncate(text: string, opts: TruncateOptions): (r: string)
    ensures |text| <= opts.limit.GetOr(TRUNCATE_LIMIT) ==> r == text
    ensures |text| > opts.limit.GetOr(TRUNCATE_LIMIT) ==>
      var omission := opts.omission.GetOr(DEFAULT_OMISSION);
      |omission| <= |r| <= |text| + |omission| && r == text[..|r| - |omission|] + omission
  {
    TruncateText(text, opts.limit.GetOr(TRUNCATE_LIMIT), opts.omission.GetOr(DEFAULT_OMISSION))
  }

  /** With no options a text of up to 100 characters is kept, and a longer one becomes its
      first 98 characters and "...", 101 characters in all. */
  lemma TruncateDefaults(text: string)
    ensures |text| <= 100 ==> Truncate(text, NO_OPTIONS) == text
    ensures |text| > 100 ==> Truncate(text, NO_OPTIONS) == text[..98] + "..."
    ensures |text| > 100 ==> |Truncate(text, NO_OPTIONS)| == 101
  {
  }

  /** The text `summary_escape` goes on to escape: the summary converted with `to_s`, so a
      missing summary shows as the empty string, then truncated with the defaults. */
  function SummaryText(summary: Option<string>): (r: string)
    ensures summary.None? ==> r == ""
    ensures summary.Some? && |summary.value| <= 100 ==> r == summary.value
    ensures summary.Some? && |summary.value| > 100 ==> r == summary.value[..98] + "..."
    ensures |r| <= 101
  {
    Truncate(ToS(summary), NO_OPTIONS)
  }
}
