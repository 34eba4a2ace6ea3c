/** What both revisions' `import_csv` share: each parsed CSV row is turned into an (event ID,
    attributes) entry and added to the table, in file order. Nothing in `import_csv` rescues
    an exception, so the first row that raises ends the import: the rows before it stay
    added and the rows after it are never read. */
module Ingest {
  import opened Wrappers
  import opened Store
  import opened GroupScan

  /** Why a row raised. */
  datatype RowError =
    | NoSuchColumn(name: string)   // `col[nil]`: the header has no column of that name
    | NilText(column: string)      // `scan_*` called on a missing text
    | BadTime(column: string)      // `Time.parse` of a missing or unreadable date
    | NilKey                       // a row without an event ID

  datatype ImportError = ImportError(row: nat, reason: RowError)

  /** The entries of the rows read before the import stopped, and why it stopped. */
  datatype Batch<A> = Batch(entries: seq<(string, A)>, failure: Option<ImportError>)

  /** The group name to store: a valid name is kept, and an invalid one (`nil` or "Null")
      is replaced by the scan of `text`, which raises when `text` itself is `nil`. */
  function ResolveGroup(g: Option<string>, text: Option<string>, textColumn: string, marker: string)
    : (r: Result<Option<string>, RowError>)
    ensures IsValidGroup(g) ==> r == Ok(g)
    ensures !IsValidGroup(g) ==> (r.Err? <==> text.None?)
    ensures !IsValidGroup(g) && text.Some? ==> r == Ok(Scan(text.value, marker))
  {
    if IsValidGroup(g) then Ok(g)
    else if text.None? then Err(NilText(textColumn))
    else Ok(Scan(text.value, marker))
  }

  /** Whatever the row holds, the stored group name is never "Null": the fallback either
      finds a name that ends with the marker or gives `nil`. */
  lemma ResolvedGroupNeverNull(g: Option<string>, text: Option<string>, textColumn: string, marker: string)
    requires marker == COMMUNITY_MARKER || marker == TEAM_MARKER
    requires ResolveGroup(g, text, textColumn, marker).Ok?
    ensures ResolveGroup(g, text, textColumn, marker).value != Some("Null")
  {
    if !IsValidGroup(g) && Scan(text.value, marker).Some? {
      ScannedNameIsValid(text.value, marker);
    }
  }

  /** The rows normalized in order up to the first one that raises. */
  function NormalizeAll<R, A>(rows: seq<R>, normalize: R -> Result<(string, A), RowError>)
    : (b: Batch<A>)
    ensures |b.entries| <= |rows|
    ensures forall i :: 0 <= i < |b.entries| ==> normalize(rows[i]) == Ok(b.entries[i])
    ensures b.failure.None? ==> |b.entries| == |rows|
    ensures b.failure.Some? ==> |b.entries| < |rows|
    ensures b.failure.Some? ==>
      b.failure.value.row == |b.entries| &&
      normalize(rows[|b.entries|]) == Err(b.failure.value.reason)
    decreases |rows|
  {
    if |rows| == 0 then Batch([], None)
    else
      var before := NormalizeAll(rows[..|rows| - 1], normalize);
      if before.failure.Some? then before
      else match normalize(rows[|rows| - 1])
        case Err(e) => Batch(before.entries, Some(ImportError(|rows| - 1, e)))
        case Ok(entry) => Batch(before.entries + [entry], None)
  }

  lemma NormalizeNext<R, A>(rows: seq<R>, i: nat, normalize: R -> Result<(string, A), RowError>, entries: seq<(string, A)>)
    requires i < |rows| && NormalizeAll(rows[..i], normalize) == Batch(entries, None)
    ensures normalize(rows[i]).Err? ==>
      NormalizeAll(rows[..i + 1], normalize) == Batch(entries, Some(ImportError(i, normalize(rows[i]).error)))
    ensures normalize(rows[i]).Ok? ==>
      NormalizeAll(rows[..i + 1], normalize) == Batch(entries + [normalize(rows[i]).value], None)
  {
    assert rows[..i + 1][..i] == rows[..i];
  }

  /** Once a row has raised, later rows change nothing. */
  lemma {:induction false} NormalizeAllStops<R, A>(rows: seq<R>, n: nat, normalize: R -> Result<(string, A), RowError>)
    requires n <= |rows|
    requires NormalizeAll(rows[..n], normalize).failure.Some?
    ensures NormalizeAll(rows, normalize) == NormalizeAll(rows[..n], normalize)
    decreases |rows|
  {
    if n < |rows| {
      var init := rows[..|rows| - 1];
      assert init[..n] == rows[..n];
      NormalizeAllStops(init, n, normalize);
    } else {
      assert rows[..n] == rows;
    }
  }

  /** Two row lists that normalize alike, row by row, give the same batch. */
  lemma {:induction false} NormalizeAllAlike<R, S, A>(
    rows: seq<R>, f: R -> Result<(string, A), RowError>,
    others: seq<S>, g: S -> Result<(string, A), RowError>)
    requires |rows| == |others|
    requires forall i :: 0 <= i < |rows| ==> f(rows[i]) == g(others[i])
    ensures NormalizeAll(rows, f) == NormalizeAll(others, g)
    decreases |rows|
  {
    if |rows| > 0 {
      NormalizeAllAlike(rows[..|rows| - 1], f, others[..|others| - 1], g);
    }
  }

  /** The loop of `import_csv`: normalize the next row and add it to the table, stopping at
      the first row that raises. */
  method ImportRows<R, A>(t: Table<A>, rows: seq<R>, normalize: R -> Result<(string, A), RowError>)
    returns (u: Table<A>, failure: Option<ImportError>)
    ensures u == AddAll(t, NormalizeAll(rows, normalize).entries)
    ensures failure == NormalizeAll(rows, normalize).failure
  {
    u, failure := t, None;
    var i := 0;
    ghost var entries: seq<(string, A)> := [];
    while i < |rows| && failure.None?
      invariant i <= |rows|
      invariant NormalizeAll(rows[..i], normalize) == Batch(entries, failure)
      invariant u == AddAll(t, entries)
    {
      NormalizeNext(rows, i, normalize, entries);
      var next := normalize(rows[i]);
      if next.Err? {
        failure := Some(ImportError(i, next.error));
      } else {
        AddAllSnoc(t, entries, next.value);
        u := Add(u, next.value.0, next.value.1);
        entries := entries + [next.value];
      }
      i := i + 1;
    }
    if failure.Some? {
      NormalizeAllStops(rows, i, normalize);
    } else {
      assert rows[..i] == rows;
    }
  }
}
