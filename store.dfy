/** The Groonga `Events` hash table, seen as a finite map from event ID to record. Each
    record holds one revision's attribute columns and the integer `good` column that both
    revisions keep beside them. */
module Store {
  datatype Record<A> = Record(attrs: A, good: int)

  type Table<A> = map<string, Record<A>>

  /** `Table#add(key, attributes)` with `good: 0`: on a hash table, a key that is already
      present keeps its record untouched, and a new key gets the attributes with no votes. */
  function Add<A>(t: Table<A>, key: string, attrs: A): (u: Table<A>)
    ensures u.Keys == t.Keys + {key}
    ensures forall k :: k in t ==> u[k] == t[k]
    ensures key !in t ==> u[key] == Record(attrs, 0)
  {
    if key in t then t else t[key := Record(attrs, 0)]
  }

  /** A new ID adds exactly one record; a known one adds none. */
  lemma AddSize<A>(t: Table<A>, key: string, attrs: A)
    ensures |Add(t, key, attrs)| == if key in t then |t| else |t| + 1
  {
  }

  /** The event IDs of a sequence of (ID, attributes) entries. */
  function EntryKeys<A>(entries: seq<(string, A)>): set<string> {
    set i | 0 <= i < |entries| :: entries[i].0
  }

  lemma EntryKeysSnoc<A>(entries: seq<(string, A)>)
    requires |entries| > 0
    ensures EntryKeys(entries) == EntryKeys(entries[..|entries| - 1]) + {entries[|entries| - 1].0}
  {
    var init := entries[..|entries| - 1];
    forall k | k in EntryKeys(entries)
      ensures k in EntryKeys(init) + {entries[|entries| - 1].0}
    {
      var i :| 0 <= i < |entries| && entries[i].0 == k;
      if i < |entries| - 1 {
        assert init[i].0 == k;
      }
    }
    forall k | k in EntryKeys(init)
      ensures k in EntryKeys(entries)
    {
      var i :| 0 <= i < |init| && init[i].0 == k;
      assert entries[i].0 == k;
    }
  }

  /** The entries added one after another, in order, as the import loop does. */
  function AddAll<A>(t: Table<A>, entries: seq<(string, A)>): (u: Table<A>)
    ensures u.Keys == t.Keys + EntryKeys(entries)
    ensures forall k :: k in t ==> u[k] == t[k]
    ensures forall k :: k in u && k !in t ==> u[k].good == 0
    decreases |entries|
  {
    if |entries| == 0 then t
    else
      var last := entries[|entries| - 1];
      var before := AddAll(t, entries[..|entries| - 1]);
      EntryKeysSnoc(entries);
      var u := Add(before, last.0, last.1);
      assert forall k :: k in u && k !in t ==> (k in before && k !in t) || (k == last.0 && k !in before);
      u
  }

  lemma AddAllSnoc<A>(t: Table<A>, entries: seq<(string, A)>, entry: (string, A))
    ensures AddAll(t, entries + [entry]) == Add(AddAll(t, entries), entry.0, entry.1)
  {
    assert (entries + [entry])[..|entries|] == entries;
  }

  /** When several entries share an ID that is new to the table, the first of them is the
      one stored: later ones find the key present and are ignored. */
  lemma {:induction false} AddAllFirstWins<A>(t: Table<A>, entries: seq<(string, A)>, i: nat)
    requires i < |entries| && entries[i].0 !in t
    requires forall j :: 0 <= j < i ==> entries[j].0 != entries[i].0
    ensures AddAll(t, entries)[entries[i].0] == Record(entries[i].1, 0)
    decreases |entries|
  {
    var init := entries[..|entries| - 1];
    if i == |entries| - 1 {
      assert entries[i].0 !in EntryKeys(init);
    } else {
      AddAllFirstWins(t, init, i);
    }
  }

  /** Entries whose IDs are all present already leave the table as it is. */
  lemma {:induction false} AddAllPresent<A>(t: Table<A>, entries: seq<(string, A)>)
    requires EntryKeys(entries) <= t.Keys
    ensures AddAll(t, entries) == t
    decreases |entries|
  {
    if |entries| > 0 {
      EntryKeysSnoc(entries);
      AddAllPresent(t, entries[..|entries| - 1]);
    }
  }

  /** Importing the same entries a second time adds nothing. */
  lemma AddAllAgain<A>(t: Table<A>, entries: seq<(string, A)>)
    ensures AddAll(AddAll(t, entries), entries) == AddAll(t, entries)
  {
    AddAllPresent(AddAll(t, entries), entries);
  }

  /** The table grows by exactly the number of distinct IDs it did not have. */
  lemma AddAllSize<A>(t: Table<A>, entries: seq<(string, A)>)
    ensures |AddAll(t, entries)| == |t| + |EntryKeys(entries) - t.Keys|
  {
    var u := AddAll(t, entries);
    var added := EntryKeys(entries) - t.Keys;
    assert u.Keys == t.Keys + added;
    assert t.Keys * added == {};
    assert |u.Keys| == |t.Keys| + |added|;
  }

  /** `@events[key][:good] += delta` for a key that is present: only that record's `good`
      changes, by exactly `delta`, and nothing bounds it from below. */
  function Bump<A>(t: Table<A>, key: string, delta: int): (u: Table<A>)
    requires key in t
    ensures u.Keys == t.Keys
    ensures u[key] == Record(t[key].attrs, t[key].good + delta)
    ensures forall k :: k in t && k != key ==> u[k] == t[k]
  {
    t[key := t[key].(good := t[key].good + delta)]
  }

  /** A vote taken back restores the table. */
  lemma BumpUndo<A>(t: Table<A>, key: string, delta: int)
    requires key in t
    ensures Bump(Bump(t, key, delta), key, -delta) == t
  {
    var u := Bump(Bump(t, key, delta), key, -delta);
    assert u.Keys == t.Keys;
    assert forall k :: k in t ==> u[k] == t[k];
  }

  /** Votes on one record add up: two up-votes and two down-votes cancel out, whatever the
      starting score. */
  lemma BumpAdds<A>(t: Table<A>, key: string, d: int, e: int)
    requires key in t
    ensures Bump(Bump(t, key, d), key, e) == Bump(t, key, d + e)
  {
    var u, v := Bump(Bump(t, key, d), key, e), Bump(t, key, d + e);
    assert u.Keys == v.Keys;
    assert forall k :: k in u ==> u[k] == v[k];
  }
}
