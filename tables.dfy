/** A table with a UNIQUE constraint, written to with INSERT OR REPLACE.
    SQL never considers two NULLs equal, so a row whose key columns hold a
    NULL conflicts with nothing: such rows are kept apart, in insertion order.
    A row with a complete key replaces the row holding that key, if any. */
module Tables {
  import opened Wrappers

  datatype Table<K, R> = Table(keyed: map<K, R>, unkeyed: seq<R>)

  function EmptyTable<K, R>(): Table<K, R> {
    Table(map[], [])
  }

  /** The number of rows. */
  function Size<K, R>(t: Table<K, R>): nat {
    |t.keyed| + |t.unkeyed|
  }

  /** INSERT OR REPLACE of one row whose key is `key` (`None` when a key
      column is NULL): the table grows by one row unless the key was taken. */
  function Replace<K, R>(t: Table<K, R>, key: Option<K>, row: R): (u: Table<K, R>)
    ensures Size(u) == Size(t) + (if key.Some? && key.value in t.keyed then 0 else 1)
  {
    match key
    case Some(k) => Table(t.keyed[k := row], t.unkeyed)
    case None => Table(t.keyed, t.unkeyed + [row])
  }

  /** After the upsert the key holds the new row, with all of its fields;
      every other key keeps its row; a NULL-keyed row is appended. */
  lemma ReplaceMeaning<K, R>(t: Table<K, R>, key: Option<K>, row: R)
    ensures var u := Replace(t, key, row);
      && (key.Some? ==> key.value in u.keyed && u.keyed[key.value] == row && u.unkeyed == t.unkeyed)
      && (key.None? ==> u.keyed == t.keyed && u.unkeyed == t.unkeyed + [row])
      && (forall k :: k in t.keyed && Some(k) != key ==> k in u.keyed && u.keyed[k] == t.keyed[k])
      && u.keyed.Keys == t.keyed.Keys + (if key.Some? then {key.value} else {})
  {
  }

  /** Replacing with the same row twice is the same as once. */
  lemma ReplaceTwice<K, R>(t: Table<K, R>, key: K, row: R)
    ensures Replace(Replace(t, Some(key), row), Some(key), row) == Replace(t, Some(key), row)
    ensures Size(Replace(Replace(t, Some(key), row), Some(key), row)) == Size(Replace(t, Some(key), row))
  {
  }

  /** A row with a NULL in its key is always a new row. */
  lemma NullKeyAlwaysInserts<K, R>(t: Table<K, R>, row: R)
    ensures Size(Replace(t, None, row)) == Size(t) + 1
    ensures Replace(t, None, row).unkeyed[|t.unkeyed|] == row
  {
  }

  /** The rows of a batch applied one after another, in order. */
  function ReplaceAll<K, R>(t: Table<K, R>, rows: seq<R>, keyOf: R -> Option<K>): Table<K, R>
  {
    if |rows| == 0 then t
    else Replace(ReplaceAll(t, rows[..|rows| - 1], keyOf), keyOf(rows[|rows| - 1]), rows[|rows| - 1])
  }

  /** The complete keys a batch carries. */
  function KeysOf<K, R>(rows: seq<R>, keyOf: R -> Option<K>): (keys: set<K>)
    ensures forall i :: 0 <= i < |rows| && keyOf(rows[i]).Some? ==> keyOf(rows[i]).value in keys
    ensures forall k :: k in keys ==> exists i :: 0 <= i < |rows| && keyOf(rows[i]) == Some(k)
  {
    if |rows| == 0 then {}
    else
      var front := rows[..|rows| - 1];
      assert forall i :: 0 <= i < |front| ==> front[i] == rows[i];
      KeysOf(front, keyOf) + match keyOf(rows[|rows| - 1]) case Some(k) => {k} case None => {}
  }

  /** The rows of a batch whose key holds a NULL, in order. */
  function NullKeyed<K, R>(rows: seq<R>, keyOf: R -> Option<K>): (nulls: seq<R>)
    ensures |nulls| <= |rows|
  {
    if |rows| == 0 then []
    else
      NullKeyed(rows[..|rows| - 1], keyOf)
      + if keyOf(rows[|rows| - 1]).None? then [rows[|rows| - 1]] else []
  }

  /** For each key of a batch, the last row carrying it. */
  function LastWins<K, R>(rows: seq<R>, keyOf: R -> Option<K>): map<K, R>
  {
    if |rows| == 0 then map[]
    else
      var prior := LastWins(rows[..|rows| - 1], keyOf);
      match keyOf(rows[|rows| - 1])
      case Some(k) => prior[k := rows[|rows| - 1]]
      case None => prior
  }

  /** A batch overrides the keyed rows with its last row per key. */
  lemma {:induction false} ReplaceAllKeyed<K, R>(t: Table<K, R>, rows: seq<R>, keyOf: R -> Option<K>)
    ensures ReplaceAll(t, rows, keyOf).keyed == t.keyed + LastWins(rows, keyOf)
  {
    if |rows| > 0 {
      var front := rows[..|rows| - 1];
      var last := rows[|rows| - 1];
      ReplaceAllKeyed(t, front, keyOf);
      var prior := LastWins(front, keyOf);
      var before := ReplaceAll(t, front, keyOf);
      assert ReplaceAll(t, rows, keyOf) == Replace(before, keyOf(last), last);
      match keyOf(last)
      case Some(k) =>
        assert ReplaceAll(t, rows, keyOf).keyed == before.keyed[k := last];
        assert LastWins(rows, keyOf) == prior[k := last];
        UpdateOverride(t.keyed, prior, k, last);
      case None =>
    }
  }

  lemma UpdateOverride<K, R>(m: map<K, R>, n: map<K, R>, k: K, v: R)
    ensures (m + n)[k := v] == m + n[k := v]
  {
  }

  /** A batch appends its NULL-keyed rows, in order. */
  lemma {:induction false} ReplaceAllUnkeyed<K, R>(t: Table<K, R>, rows: seq<R>, keyOf: R -> Option<K>)
    ensures ReplaceAll(t, rows, keyOf).unkeyed == t.unkeyed + NullKeyed(rows, keyOf)
  {
    if |rows| > 0 {
      var front := rows[..|rows| - 1];
      var last := rows[|rows| - 1];
      ReplaceAllUnkeyed(t, front, keyOf);
      if keyOf(last).None? {
        assert t.unkeyed + NullKeyed(front, keyOf) + [last] == t.unkeyed + (NullKeyed(front, keyOf) + [last]);
      } else {
        assert NullKeyed(rows, keyOf) == NullKeyed(front, keyOf) + [];
      }
    }
  }

  /** The keys of the last-row map are exactly the batch's keys. */
  lemma {:induction false} LastWinsKeys<K, R>(rows: seq<R>, keyOf: R -> Option<K>)
    ensures LastWins(rows, keyOf).Keys == KeysOf(rows, keyOf)
  {
    if |rows| > 0 {
      LastWinsKeys(rows[..|rows| - 1], keyOf);
    }
  }

  /** Within a batch, the last row carrying a key is the one kept. */
  lemma {:induction false} LastRowWins<K, R>(t: Table<K, R>, rows: seq<R>, keyOf: R -> Option<K>, i: int)
    requires 0 <= i < |rows| && keyOf(rows[i]).Some?
    requires forall j :: i < j < |rows| ==> keyOf(rows[j]) != keyOf(rows[i])
    ensures keyOf(rows[i]).value in ReplaceAll(t, rows, keyOf).keyed
    ensures ReplaceAll(t, rows, keyOf).keyed[keyOf(rows[i]).value] == rows[i]
  {
    if i < |rows| - 1 {
      var front := rows[..|rows| - 1];
      assert forall j :: i < j < |front| ==> front[j] == rows[j];
      LastRowWins(t, front, keyOf, i);
    }
  }

  /** Keys the batch does not carry keep their rows. */
  lemma {:induction false} OtherKeysUnchanged<K, R>(t: Table<K, R>, rows: seq<R>, keyOf: R -> Option<K>, k: K)
    requires k in t.keyed
    requires forall j :: 0 <= j < |rows| ==> keyOf(rows[j]) != Some(k)
    ensures k in ReplaceAll(t, rows, keyOf).keyed && ReplaceAll(t, rows, keyOf).keyed[k] == t.keyed[k]
  {
    if |rows| > 0 {
      var front := rows[..|rows| - 1];
      assert forall j :: 0 <= j < |front| ==> front[j] == rows[j];
      OtherKeysUnchanged(t, front, keyOf, k);
    }
  }

  /** A batch never removes a row, and adds at most one row per batch row. */
  lemma {:induction false} ReplaceAllGrowth<K, R>(t: Table<K, R>, rows: seq<R>, keyOf: R -> Option<K>)
    ensures Size(t) <= Size(ReplaceAll(t, rows, keyOf)) <= Size(t) + |rows|
    ensures t.keyed.Keys <= ReplaceAll(t, rows, keyOf).keyed.Keys
  {
    if |rows| > 0 {
      ReplaceAllGrowth(t, rows[..|rows| - 1], keyOf);
    }
  }

  /** Two batches in a row are one batch of both. */
  lemma {:induction false} ReplaceAllConcat<K, R>(t: Table<K, R>, a: seq<R>, b: seq<R>, keyOf: R -> Option<K>)
    ensures ReplaceAll(ReplaceAll(t, a, keyOf), b, keyOf) == ReplaceAll(t, a + b, keyOf)
  {
    if |b| > 0 {
      var front := b[..|b| - 1];
      ReplaceAllConcat(t, a, front, keyOf);
      assert (a + b)[..|a + b| - 1] == a + front;
    } else {
      assert a + b == a;
    }
  }

  /** Replaying a batch leaves the keyed rows as they were after the first
      time; only its NULL-keyed rows are added again. */
  lemma ReplayBatch<K, R>(t: Table<K, R>, rows: seq<R>, keyOf: R -> Option<K>)
    ensures ReplaceAll(ReplaceAll(t, rows, keyOf), rows, keyOf).keyed == ReplaceAll(t, rows, keyOf).keyed
    ensures ReplaceAll(ReplaceAll(t, rows, keyOf), rows, keyOf).unkeyed
         == ReplaceAll(t, rows, keyOf).unkeyed + NullKeyed(rows, keyOf)
  {
    var once := ReplaceAll(t, rows, keyOf);
    ReplaceAllKeyed(t, rows, keyOf);
    ReplaceAllKeyed(once, rows, keyOf);
    ReplaceAllUnkeyed(once, rows, keyOf);
    var lw := LastWins(rows, keyOf);
    assert (t.keyed + lw) + lw == t.keyed + lw;
  }
}
