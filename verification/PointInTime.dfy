/** `ObservationReader.latest` and `range`: the queries, stage by stage, and the point-in-time reading they give. */
module PointInTime {
  import opened Options
  import opened Observations

  datatype Observation = Observation(key: Key, row: Row)

  // ---------------------------------------------------------------- the queries

  /** `:pit IS NULL OR as_of <= :pit`. */
  predicate Visible(pit: Option<int>, k: Key) {
    pit == None || k.asOf <= pit.value
  }

  /** The `WHERE` clause of `latest`. */
  function Candidates(table: Observed, series: nat, pit: Option<int>): set<Key> {
    set k | k in table.Keys && k.series == series && Visible(pit, k)
  }

  /** The `WHERE` clause of `range`, over `[from, until)`. */
  function Windowed(keys: set<Key>, from: int, until: int): set<Key> {
    set k | k in keys && from <= k.ts < until
  }

  /** `ORDER BY ts, as_of DESC`, with `ts` descending when `newest` is set. */
  predicate Precedes(newest: bool, a: Key, b: Key) {
    if a.ts == b.ts then a.asOf > b.asOf else if newest then a.ts > b.ts else a.ts < b.ts
  }

  ghost predicate OneSeries(series: nat, keys: set<Key>) {
    forall k :: k in keys ==> k.series == series
  }

  /** The row every other row comes after. */
  predicate IsFirst(newest: bool, keys: set<Key>, k: Key) {
    k in keys && forall x :: x in keys && x != k ==> Precedes(newest, k, x)
  }

  function First(newest: bool, ghost series: nat, keys: set<Key>): (k: Key)
    requires keys != {} && OneSeries(series, keys)
    ensures IsFirst(newest, keys, k)
  {
    FirstExists(newest, series, keys);
    var k :| IsFirst(newest, keys, k);
    k
  }

  lemma {:induction false} FirstExists(newest: bool, series: nat, keys: set<Key>)
    requires keys != {} && OneSeries(series, keys)
    ensures exists k :: IsFirst(newest, keys, k)
    decreases |keys|
  {
    var a :| a in keys;
    var rest := keys - {a};
    assert keys == rest + {a};
    if rest == {} {
      assert IsFirst(newest, keys, a);
    } else {
      FirstExists(newest, series, rest);
      var b :| IsFirst(newest, rest, b);
      assert a.series == b.series && a != b;
      if Precedes(newest, a, b) {
        assert IsFirst(newest, keys, a);
      } else {
        assert IsFirst(newest, keys, b);
      }
    }
  }

  function Sort(newest: bool, ghost series: nat, keys: set<Key>): seq<Key>
    requires OneSeries(series, keys)
    decreases |keys|
  {
    if keys == {} then []
    else
      var k := First(newest, series, keys);
      [k] + Sort(newest, series, keys - {k})
  }

  /** `DISTINCT ON (ts)`: the first row of each run of equal `ts`. */
  function DistinctOn(rows: seq<Key>): seq<Key> {
    if |rows| <= 1 then rows
    else
      var before := DistinctOn(rows[..|rows| - 1]);
      if rows[|rows| - 2].ts == rows[|rows| - 1].ts then before else before + [rows[|rows| - 1]]
  }

  /** The whole statement without its limit: inner sort, collapse, outer sort. */
  function Collapse(newest: bool, ghost series: nat, keys: set<Key>): seq<Key>
    requires OneSeries(series, keys)
  {
    var inner := DistinctOn(Sort(newest, series, keys));
    CollapseKeepsSeries(newest, series, keys);
    Sort(newest, series, set k | k in inner)
  }

  function Fetch(table: Observed, keys: seq<Key>): seq<Observation>
    requires forall k :: k in keys ==> k in table
  {
    seq(|keys|, i requires 0 <= i < |keys| => Observation(keys[i], table[keys[i]]))
  }

  function Limited<T>(rows: seq<T>, limit: Option<nat>): seq<T> {
    if limit.Some? && limit.value < |rows| then rows[..limit.value] else rows
  }

  function Latest(table: Observed, series: nat, pit: Option<int>): Option<Observation> {
    CollapseFacts(true, series, Candidates(table, series, pit));
    var rows := Limited(Fetch(table, Collapse(true, series, Candidates(table, series, pit))), Some(1));
    if rows == [] then None else Some(rows[0])
  }

  function Range(table: Observed, series: nat, from: int, until: int, pit: Option<int>,
                 limit: Option<nat>): seq<Observation> {
    CollapseFacts(false, series, Windowed(Candidates(table, series, pit), from, until));
    Limited(Fetch(table, Collapse(false, series, Windowed(Candidates(table, series, pit), from, until))), limit)
  }

  // ---------------------------------------------------------------- what the stages give

  ghost predicate Ordered(newest: bool, rows: seq<Key>) {
    forall i, j :: 0 <= i < j < |rows| ==> Precedes(newest, rows[i], rows[j])
  }

  lemma {:induction false} SortIsOrdered(newest: bool, series: nat, keys: set<Key>)
    requires OneSeries(series, keys)
    ensures var rows := Sort(newest, series, keys);
            Ordered(newest, rows) && (forall k :: k in rows <==> k in keys)
    decreases |keys|
  {
    if keys != {} {
      var k := First(newest, series, keys);
      var rest := Sort(newest, series, keys - {k});
      SortIsOrdered(newest, series, keys - {k});
      forall j | 0 <= j < |rest| ensures Precedes(newest, k, rest[j]) {
        assert rest[j] in rest;
      }
    }
  }

  /** The best row of its `ts`: the greatest `as_of`. */
  ghost predicate Wins(rows: seq<Key>, k: Key) {
    k in rows && forall x :: x in rows && x.ts == k.ts ==> x.asOf <= k.asOf
  }

  /** One more row in sort order: it wins just when its `ts` is new, and no earlier winner is displaced. */
  lemma WinsSnoc(newest: bool, before: seq<Key>, z: Key, k: Key)
    requires Ordered(newest, before + [z]) && before != []
    ensures Wins(before + [z], k) <==> Wins(before, k) || (k == z && before[|before| - 1].ts != z.ts)
  {
    var rows, n := before + [z], |before|;
    forall x | x in before
        ensures Precedes(newest, x, z) && (x == before[n - 1] || Precedes(newest, x, before[n - 1])) {
      var i :| 0 <= i < n && before[i] == x;
      assert rows[i] == x && rows[n] == z && rows[n - 1] == before[n - 1];
    }
    assert before[n - 1] in before;
  }

  lemma {:induction false} DistinctOnFacts(newest: bool, rows: seq<Key>)
    requires Ordered(newest, rows)
    ensures forall k :: k in DistinctOn(rows) <==> Wins(rows, k)
  {
    if |rows| > 1 {
      var before, z := rows[..|rows| - 1], rows[|rows| - 1];
      DistinctOnFacts(newest, before);
      assert rows == before + [z];
      forall k ensures k in DistinctOn(rows) <==> Wins(rows, k) {
        WinsSnoc(newest, before, z, k);
      }
    }
  }

  lemma CollapseKeepsSeries(newest: bool, series: nat, keys: set<Key>)
    requires OneSeries(series, keys)
    ensures OneSeries(series, set k | k in DistinctOn(Sort(newest, series, keys)))
  {
    SortIsOrdered(newest, series, keys);
    DistinctOnFacts(newest, Sort(newest, series, keys));
  }

  /** The row a point-in-time read gives for its `ts`. */
  ghost predicate Best(keys: set<Key>, k: Key) {
    k in keys && forall x :: x in keys && x.ts == k.ts ==> x.asOf <= k.asOf
  }

  /** The statement returns exactly the winning rows, strictly ordered by `ts`. */
  lemma CollapseFacts(newest: bool, series: nat, keys: set<Key>)
    requires OneSeries(series, keys)
    ensures var rows := Collapse(newest, series, keys);
            && (forall k :: k in rows <==> Best(keys, k))
            && (forall i, j :: 0 <= i < j < |rows| ==>
                if newest then rows[i].ts > rows[j].ts else rows[i].ts < rows[j].ts)
  {
    var sorted := Sort(newest, series, keys);
    SortIsOrdered(newest, series, keys);
    DistinctOnFacts(newest, sorted);
    var kept := set k | k in DistinctOn(sorted);
    SortIsOrdered(newest, series, kept);
    var rows := Collapse(newest, series, keys);
    assert forall k :: k in rows <==> Wins(sorted, k);
    forall i, j | 0 <= i < j < |rows| ensures if newest then rows[i].ts > rows[j].ts else rows[i].ts < rows[j].ts {
      assert rows[i] in rows && rows[j] in rows;
      assert Precedes(newest, rows[i], rows[j]);
      assert Wins(sorted, rows[i]) && Wins(sorted, rows[j]);
    }
  }

  // ---------------------------------------------------------------- the point-in-time reading

  /** The stored fact for its `ts` as known at `pit`: recorded by then, and nothing recorded by then is later. */
  ghost predicate Current(table: Observed, series: nat, pit: Option<int>, o: Observation) {
    && o.key in table && table[o.key] == o.row && o.key.series == series
    && (pit.None? || o.key.asOf <= pit.value)
    && forall k :: k in table && k.series == series && k.ts == o.key.ts && (pit.None? || k.asOf <= pit.value) ==>
         k.asOf <= o.key.asOf
  }

  /** `range` without a limit: every fact of the window as known at `pit`, one per `ts`, in time order. */
  lemma RangeIsPointInTime(table: Observed, series: nat, from: int, until: int, pit: Option<int>)
    ensures var rows := Range(table, series, from, until, pit, None);
            && (forall o :: o in rows <==> Current(table, series, pit, o) && from <= o.key.ts < until)
            && (forall i, j :: 0 <= i < j < |rows| ==> rows[i].key.ts < rows[j].key.ts)
  {
    var keys := Windowed(Candidates(table, series, pit), from, until);
    CollapseFacts(false, series, keys);
    var found := Collapse(false, series, keys);
    var rows := Range(table, series, from, until, pit, None);
    assert rows == Fetch(table, found);
    forall o ensures o in rows <==> Current(table, series, pit, o) && from <= o.key.ts < until {
      if o in rows {
        var i :| 0 <= i < |rows| && rows[i] == o;
        assert found[i] == o.key && found[i] in found;
        WinnerIsCurrent(table, series, pit, from, until, o);
      }
      if Current(table, series, pit, o) && from <= o.key.ts < until {
        WinnerIsCurrent(table, series, pit, from, until, o);
        var i :| 0 <= i < |found| && found[i] == o.key;
        assert rows[i] == o;
      }
    }
  }

  lemma WinnerIsCurrent(table: Observed, series: nat, pit: Option<int>, from: int, until: int, o: Observation)
    ensures Best(Windowed(Candidates(table, series, pit), from, until), o.key) && table[o.key] == o.row
       <==> Current(table, series, pit, o) && from <= o.key.ts < until
  {
  }

  /** A limit keeps the first rows. */
  lemma LimitIsPrefix(table: Observed, series: nat, from: int, until: int, pit: Option<int>, n: nat)
    ensures var all := Range(table, series, from, until, pit, None);
            var some := Range(table, series, from, until, pit, Some(n));
            some <= all && |some| == if n < |all| then n else |all|
  {
  }

  /** `latest` returns the fact with the greatest `ts` as known at `pit`, and nothing just when nothing is visible. */
  lemma LatestIsPointInTime(table: Observed, series: nat, pit: Option<int>, o: Observation)
    ensures Latest(table, series, pit) == Some(o) <==>
              && Current(table, series, pit, o)
              && forall k :: k in table && k.series == series && (pit.None? || k.asOf <= pit.value) ==> k.ts <= o.key.ts
    ensures Latest(table, series, pit) == None <==>
              forall k :: k in table && k.series == series ==> pit.Some? && pit.value < k.asOf
  {
    var keys := Candidates(table, series, pit);
    var rows := Collapse(true, series, keys);
    CollapseFacts(true, series, keys);
    forall k | k in keys ensures rows != [] && k.ts <= rows[0].ts {
      NewestFirst(series, keys, k);
    }
    if rows != [] {
      assert rows[0] in rows;
      assert Latest(table, series, pit) == Some(Observation(rows[0], table[rows[0]]));
    }
    if Current(table, series, pit, o) {
      assert o.key in keys;
      assert Best(keys, o.key);
    }
  }

  /** Every candidate has a winner of its `ts`, so none is newer than the first row. */
  lemma NewestFirst(series: nat, keys: set<Key>, k: Key)
    requires OneSeries(series, keys) && k in keys
    ensures var rows := Collapse(true, series, keys); rows != [] && k.ts <= rows[0].ts
  {
    CollapseFacts(true, series, keys);
    var rows := Collapse(true, series, keys);
    var same := set x | x in keys && x.ts == k.ts;
    assert k in same;
    var w := First(true, series, same);
    assert Best(keys, w) by {
      forall x | x in keys && x.ts == w.ts ensures x.asOf <= w.asOf {
        assert x in same;
        assert x == w || Precedes(true, w, x);
      }
    }
    var i :| 0 <= i < |rows| && rows[i] == w;
  }

  /** What is recorded exactly at `pit` is seen at `pit`: a new row of greatest `ts` is the latest one. */
  lemma WriteAtPitIsSeen(table: Observed, series: nat, o: Obs, pit: int)
    requires o.asOf == pit && Key(series, o.ts, pit) !in table
    requires forall k :: k in table && k.series == series && k.asOf <= pit ==> k.ts <= o.ts
    ensures Latest(InsertAll(table, series, [o]), series, Some(pit))
         == Some(Observation(Key(series, o.ts, pit), Row(o.hash, o.payload)))
  {
    var t := InsertAll(table, series, [o]);
    assert [o][..0] == [] && InsertAll(table, series, []) == table;
    assert t == table[Key(series, o.ts, pit) := Row(o.hash, o.payload)];
    LatestIsPointInTime(t, series, Some(pit), Observation(Key(series, o.ts, pit), Row(o.hash, o.payload)));
  }

  // ---------------------------------------------------------------- stability under later writes

  datatype Batch = Batch(series: nat, obs: seq<Obs>)

  /** The table after a run of writes; a refused batch leaves it alone. */
  ghost function AfterWrites(table: Observed, run: seq<Batch>): Observed {
    if run == [] then table
    else
      var before := AfterWrites(table, run[..|run| - 1]);
      var b := run[|run| - 1];
      if Accepts(before, b.series, b.obs) then InsertAll(before, b.series, b.obs) else before
  }

  ghost predicate RecordedAfter(pit: int, run: seq<Batch>) {
    forall b, o :: b in run && o in b.obs ==> o.asOf > pit
  }

  lemma {:induction false} WritesOnlyAddLater(table: Observed, run: seq<Batch>, pit: int)
    requires RecordedAfter(pit, run)
    ensures var t := AfterWrites(table, run);
            && (forall k :: k in table ==> k in t && t[k] == table[k])
            && (forall k :: k in t && k !in table ==> k.asOf > pit)
  {
    if run != [] {
      var b := run[|run| - 1];
      assert b in run;
      WritesOnlyAddLater(table, run[..|run| - 1], pit);
      InsertAllFacts(AfterWrites(table, run[..|run| - 1]), b.series, b.obs);
    }
  }

  /** Whatever is recorded after `pit` does not change a reading at `pit`. */
  lemma LaterWritesAreInvisible(table: Observed, run: seq<Batch>, pit: int, series: nat, from: int, until: int,
                                limit: Option<nat>)
    requires RecordedAfter(pit, run)
    ensures Latest(AfterWrites(table, run), series, Some(pit)) == Latest(table, series, Some(pit))
    ensures Range(AfterWrites(table, run), series, from, until, Some(pit), limit)
        == Range(table, series, from, until, Some(pit), limit)
  {
    var t := AfterWrites(table, run);
    WritesOnlyAddLater(table, run, pit);
    var keys := Candidates(table, series, Some(pit));
    assert Candidates(t, series, Some(pit)) == keys;
    CollapseFacts(true, series, keys);
    CollapseFacts(false, series, Windowed(keys, from, until));
    FetchSame(table, t, Collapse(true, series, keys));
    FetchSame(table, t, Collapse(false, series, Windowed(keys, from, until)));
  }

  lemma FetchSame(table: Observed, t: Observed, keys: seq<Key>)
    requires forall k :: k in keys ==> k in table && k in t && t[k] == table[k]
    ensures Fetch(t, keys) == Fetch(table, keys)
  {
    forall i | 0 <= i < |keys| ensures Fetch(t, keys)[i] == Fetch(table, keys)[i] {
      assert keys[i] in keys;
    }
  }
}
