/** `ObservationWriter.write`: in-memory dedup, chunked insert and hash reconciliation. */
module Observations {
  import opened Options

  datatype Key = Key(series: nat, ts: int, asOf: int)
  datatype Hash = Hash(hex: string)

  /** What is stored under a key: the payload and its recorded hash. */
  datatype Row = Row(hash: Hash, payload: nat)

  /** An input row.  The flags are the outcomes of the structural checks and of the metadata key check;
      `hash` is its payload hash. */
  datatype Obs = Obs(ts: int, asOf: int, wellTimed: bool, oneValue: bool, cleanKeys: bool, hash: Hash, payload: nat)

  type Observed = map<Key, Row>

  datatype Action = Inserted | Unchanged
  datatype AuditRow = AuditRow(key: Key, hash: Hash, action: Action)

  /** One `observation.write_batch` event with its per-key rows. */
  datatype AuditEvent = AuditEvent(series: nat, attempted: nat, batchSize: nat, inserted: nat, same: nat,
                                   keys: seq<AuditRow>)

  datatype WriteResult = Invalid | BadMetadata | Conflict | Written(attempted: nat, inserted: nat, same: nat)

  function KeyOf(series: nat, o: Obs): Key {
    Key(series, o.ts, o.asOf)
  }

  function KeysOf(series: nat, obs: seq<Obs>): set<Key> {
    set o | o in obs :: KeyOf(series, o)
  }

  /** `INSERT ... ON CONFLICT DO NOTHING`, row by row. */
  function InsertAll(table: Observed, series: nat, obs: seq<Obs>): Observed {
    if obs == [] then table
    else
      var before := InsertAll(table, series, obs[..|obs| - 1]);
      var o := obs[|obs| - 1];
      if KeyOf(series, o) in before then before else before[KeyOf(series, o) := Row(o.hash, o.payload)]
  }

  ghost predicate DistinctKeys(series: nat, obs: seq<Obs>) {
    forall i, j :: 0 <= i < j < |obs| ==> KeyOf(series, obs[i]) != KeyOf(series, obs[j])
  }

  /** Some key of the batch comes with two hashes. */
  ghost predicate BatchDisagrees(series: nat, obs: seq<Obs>) {
    exists a, b :: a in obs && b in obs && KeyOf(series, a) == KeyOf(series, b) && a.hash != b.hash
  }

  /** Some key of the batch is stored with another hash. */
  ghost predicate TableDisagrees(table: Observed, series: nat, obs: seq<Obs>) {
    exists o :: o in obs && KeyOf(series, o) in table && table[KeyOf(series, o)].hash != o.hash
  }

  /** The forensic rows of one batch. */
  function AuditOf(table: Observed, series: nat, deduped: seq<Obs>): seq<AuditRow> {
    if deduped == [] then []
    else
      var o := deduped[|deduped| - 1];
      AuditOf(table, series, deduped[..|deduped| - 1])
      + [AuditRow(KeyOf(series, o), o.hash, if KeyOf(series, o) in table then Unchanged else Inserted)]
  }

  /** First occurrence of each key, in input order. */
  function Firsts(series: nat, obs: seq<Obs>): seq<Obs> {
    if obs == [] then []
    else
      var before := Firsts(series, obs[..|obs| - 1]);
      if KeyOf(series, obs[|obs| - 1]) in KeysOf(series, before) then before else before + [obs[|obs| - 1]]
  }

  // ---------------------------------------------------------------- what the specification functions mean

  lemma KeysOfConcat(series: nat, a: seq<Obs>, b: seq<Obs>)
    ensures KeysOf(series, a + b) == KeysOf(series, a) + KeysOf(series, b)
  {
    forall k | k in KeysOf(series, a) + KeysOf(series, b) ensures k in KeysOf(series, a + b) {
      var o :| (o in a || o in b) && KeyOf(series, o) == k;
      assert o in a + b;
    }
  }

  lemma KeysOfSnoc(series: nat, a: seq<Obs>, o: Obs)
    ensures KeysOf(series, a + [o]) == KeysOf(series, a) + {KeyOf(series, o)}
  {
    KeysOfConcat(series, a, [o]);
    assert KeysOf(series, [o]) == {KeyOf(series, o)} by {
      assert o in [o];
    }
  }

  lemma {:induction false} FirstsFacts(series: nat, obs: seq<Obs>)
    ensures var f := Firsts(series, obs);
            && DistinctKeys(series, f) && KeysOf(series, f) == KeysOf(series, obs)
            && (forall o :: o in f ==> o in obs) && |f| <= |obs|
  {
    if obs != [] {
      var before, o := obs[..|obs| - 1], obs[|obs| - 1];
      FirstsFacts(series, before);
      assert obs == before + [o];
      var f := Firsts(series, before);
      KeysOfSnoc(series, before, o);
      KeysOfSnoc(series, f, o);
      forall i | 0 <= i < |f| ensures KeyOf(series, f[i]) in KeysOf(series, f) {
        assert f[i] in f;
      }
    }
  }

  /** Inserting changes no stored row and stores each new key with a row of the batch. */
  lemma {:induction false} InsertAllFacts(table: Observed, series: nat, obs: seq<Obs>)
    ensures var t := InsertAll(table, series, obs);
            && (forall k :: k in table ==> k in t && t[k] == table[k])
            && t.Keys == table.Keys + KeysOf(series, obs)
            && (forall k :: k in t && k !in table ==>
                exists o :: o in obs && KeyOf(series, o) == k && t[k] == Row(o.hash, o.payload))
  {
    if obs != [] {
      var before, o := obs[..|obs| - 1], obs[|obs| - 1];
      InsertAllFacts(table, series, before);
      assert obs == before + [o];
      KeysOfSnoc(series, before, o);
      var t := InsertAll(table, series, obs);
      forall k | k in t && k !in table
          ensures exists o :: o in obs && KeyOf(series, o) == k && t[k] == Row(o.hash, o.payload) {
        if k in InsertAll(table, series, before) {
          var x :| x in before && KeyOf(series, x) == k
            && InsertAll(table, series, before)[k] == Row(x.hash, x.payload);
          assert x in obs;
        }
      }
    }
  }

  lemma {:induction false} InsertAllSplits(table: Observed, series: nat, a: seq<Obs>, b: seq<Obs>)
    ensures InsertAll(table, series, a + b) == InsertAll(InsertAll(table, series, a), series, b)
  {
    if b == [] {
      assert a + b == a;
    } else {
      assert (a + b)[..|a + b| - 1] == a + b[..|b| - 1];
      InsertAllSplits(table, series, a, b[..|b| - 1]);
    }
  }

  /** Dropping later duplicates changes nothing: the first row of a key is the one that is stored. */
  lemma {:induction false} InsertFirstsIsInsertAll(table: Observed, series: nat, obs: seq<Obs>)
    ensures InsertAll(table, series, Firsts(series, obs)) == InsertAll(table, series, obs)
  {
    if obs != [] {
      var before, o := obs[..|obs| - 1], obs[|obs| - 1];
      InsertFirstsIsInsertAll(table, series, before);
      var f := Firsts(series, before);
      FirstsFacts(series, before);
      InsertAllFacts(table, series, before);
      if KeyOf(series, o) !in KeysOf(series, f) {
        assert (f + [o])[..|f|] == f;
      }
    }
  }

  /** The audit lists each distinct key once, with its action. */
  lemma {:induction false} AuditFacts(table: Observed, series: nat, deduped: seq<Obs>)
    ensures var audit := AuditOf(table, series, deduped);
            && |audit| == |deduped|
            && forall i :: 0 <= i < |deduped| ==>
                 audit[i] == AuditRow(KeyOf(series, deduped[i]), deduped[i].hash, if KeyOf(series, deduped[i]) in table
                     then Unchanged else Inserted)
  {
    if deduped != [] {
      AuditFacts(table, series, deduped[..|deduped| - 1]);
    }
  }

  /** The audit of a batch names every distinct key exactly once, and says "inserted" of just the new ones. */
  lemma AuditCoversBatch(table: Observed, series: nat, obs: seq<Obs>)
    ensures var audit := AuditOf(table, series, Firsts(series, obs));
            && (forall i, j :: 0 <= i < j < |audit| ==> audit[i].key != audit[j].key)
            && (forall k :: k in KeysOf(series, obs) <==> exists a :: a in audit && a.key == k)
            && (forall a :: a in audit ==> (a.action == Inserted <==> a.key !in table))
            && (forall a :: a in audit && a.action == Inserted ==> a.key in InsertAll(table, series, obs))
            && (!BatchDisagrees(series, obs) ==> forall a, o :: a in audit && o in obs && KeyOf(series, o) == a.key ==>
                a.hash == o.hash)
  {
    var audit := AuditOf(table, series, Firsts(series, obs));
    FirstsFacts(series, obs);
    AuditFacts(table, series, Firsts(series, obs));
    forall k ensures k in KeysOf(series, obs) <==> exists a :: a in audit && a.key == k {
      AuditNamesKey(table, series, obs, k);
    }
    forall a | a in audit
      ensures (a.action == Inserted <==> a.key !in table) && a.key in InsertAll(table, series, obs)
      ensures !BatchDisagrees(series, obs) ==> forall o :: o in obs && KeyOf(series, o) == a.key ==> a.hash == o.hash
    {
      var x := AuditEntry(table, series, obs, a);
      InsertAllFacts(table, series, obs);
    }
  }

  /** A row of the audit comes from a row of the batch. */
  lemma AuditEntry(table: Observed, series: nat, obs: seq<Obs>, a: AuditRow) returns (o: Obs)
    requires a in AuditOf(table, series, Firsts(series, obs))
    ensures o in obs && KeyOf(series, o) == a.key && o.hash == a.hash && a.key in KeysOf(series, obs)
    ensures a.action == Inserted <==> a.key !in table
  {
    var f := Firsts(series, obs);
    FirstsFacts(series, obs);
    AuditFacts(table, series, f);
    var i :| 0 <= i < |f| && AuditOf(table, series, f)[i] == a;
    o := f[i];
    assert o in f;
  }

  lemma AuditNamesKey(table: Observed, series: nat, obs: seq<Obs>, k: Key)
    ensures k in KeysOf(series, obs) <==>
        exists a :: a in AuditOf(table, series, Firsts(series, obs)) && a.key == k
  {
    var f := Firsts(series, obs);
    var audit := AuditOf(table, series, f);
    FirstsFacts(series, obs);
    AuditFacts(table, series, f);
    if k in KeysOf(series, obs) {
      var i :| 0 <= i < |f| && KeyOf(series, f[i]) == k;
      assert audit[i] in audit;
    }
    if a :| a in audit && a.key == k {
      var o := AuditEntry(table, series, obs, a);
    }
  }

  /** A batch with distinct keys has as many keys as rows. */
  lemma {:induction false} DistinctCount(series: nat, obs: seq<Obs>)
    requires DistinctKeys(series, obs)
    ensures |KeysOf(series, obs)| == |obs|
  {
    if obs != [] {
      var before, o := obs[..|obs| - 1], obs[|obs| - 1];
      DistinctCount(series, before);
      assert obs == before + [o];
      KeysOfSnoc(series, before, o);
      assert KeyOf(series, o) !in KeysOf(series, before);
    }
  }

  /** A batch conflicts only within one `(series, ts, as_of)`: two rows of it, or a row and a stored one, that agree in
      all three and differ in their hash. */
  lemma ConflictsAreWithinOneKey(table: Observed, series: nat, obs: seq<Obs>)
    ensures BatchDisagrees(series, obs) <==>
              exists a, b :: a in obs && b in obs && a.ts == b.ts && a.asOf == b.asOf && a.hash != b.hash
    ensures TableDisagrees(table, series, obs) <==>
              exists o, k :: && o in obs && k in table && k.series == series && k.ts == o.ts && k.asOf == o.asOf
                             && table[k].hash != o.hash
  {
    if o, k :| && o in obs && k in table && k.series == series && k.ts == o.ts && k.asOf == o.asOf
               && table[k].hash != o.hash {
      assert k == KeyOf(series, o);
    }
    if o :| o in obs && KeyOf(series, o) in table && table[KeyOf(series, o)].hash != o.hash {
      var k := KeyOf(series, o);
      assert k in table && k.series == series && k.ts == o.ts && k.asOf == o.asOf;
    }
  }

  /** Rows that differ in `ts` or `as_of` are all stored, each under its own key. */
  lemma DifferentTimesAreKept(table: Observed, series: nat, obs: seq<Obs>, o: Obs)
    requires o in obs && (forall x :: x in obs && x != o ==> x.ts != o.ts || x.asOf != o.asOf)
    requires forall k :: k in table ==> !(k.series == series && k.ts == o.ts && k.asOf == o.asOf)
    ensures var t := InsertAll(table, series, obs);
            Key(series, o.ts, o.asOf) in t && t[Key(series, o.ts, o.asOf)] == Row(o.hash, o.payload)
  {
    InsertAllFacts(table, series, obs);
    assert KeyOf(series, o) in KeysOf(series, obs);
  }

  /** Writing the same batch again conflicts with nothing and inserts nothing. */
  lemma RerunInsertsNothing(table: Observed, series: nat, obs: seq<Obs>)
    requires !BatchDisagrees(series, obs) && !TableDisagrees(table, series, obs)
    ensures var t := InsertAll(table, series, obs);
            !TableDisagrees(t, series, obs) && InsertAll(t, series, obs) == t && KeysOf(series, obs) <= t.Keys
  {
    InsertAllFacts(table, series, obs);
    var t := InsertAll(table, series, obs);
    InsertAllFacts(t, series, obs);
    assert InsertAll(t, series, obs).Keys == t.Keys;
    forall o | o in obs ensures KeyOf(series, o) in t && t[KeyOf(series, o)].hash == o.hash {
      assert KeyOf(series, o) in KeysOf(series, obs);
      if KeyOf(series, o) !in table {
        var x :| x in obs && KeyOf(series, x) == KeyOf(series, o) && t[KeyOf(series, o)] == Row(x.hash, x.payload);
      }
    }
  }

  // ---------------------------------------------------------------- the writer

  /** Rows that pass the structural re-check of phase 0a. */
  predicate WellFormed(o: Obs) {
    o.wellTimed && o.oneValue
  }

  /** A row with a forbidden metadata key is met before any in-batch disagreement. */
  ghost predicate MetadataFailsFirst(series: nat, obs: seq<Obs>) {
    exists i :: 0 <= i < |obs| && !obs[i].cleanKeys && !BatchDisagrees(series, obs[..i])
  }

  /** Exactly the batches a write takes. */
  ghost predicate Accepts(table: Observed, series: nat, obs: seq<Obs>) {
    && (forall o :: o in obs ==> o.wellTimed && o.oneValue && o.cleanKeys)
    && !BatchDisagrees(series, obs) && !TableDisagrees(table, series, obs)
  }

  /** A batch is refused for its metadata or for a disagreement inside it; which comes first only names the error. */
  lemma DirtyBatchStops(series: nat, obs: seq<Obs>)
    requires !BatchDisagrees(series, obs)
    ensures MetadataFailsFirst(series, obs) <==> exists o :: o in obs && !o.cleanKeys
  {
    if o :| o in obs && !o.cleanKeys {
      var i :| 0 <= i < |obs| && obs[i] == o;
      assert obs[..|obs|] == obs;
      if BatchDisagrees(series, obs[..i]) {
        DisagreementGrows(series, obs, i, |obs|);
        assert false;
      }
    }
  }

  lemma AcceptsExactly(table: Observed, series: nat, obs: seq<Obs>)
    ensures Accepts(table, series, obs) <==>
              && !(exists o :: o in obs && !(o.wellTimed && o.oneValue))
              && !MetadataFailsFirst(series, obs)
              && !(BatchDisagrees(series, obs) || TableDisagrees(table, series, obs))
  {
    if !BatchDisagrees(series, obs) {
      DirtyBatchStops(series, obs);
    }
  }

  /** The state of phase 0b after a prefix of the batch: the first row of each key, and `seen` its hash. */
  ghost predicate Deduped(series: nat, done: seq<Obs>, seen: map<Key, Hash>, deduped: seq<Obs>) {
    && deduped == Firsts(series, done)
    && seen.Keys == KeysOf(series, done)
    && (forall o :: o in done ==> KeyOf(series, o) in seen && seen[KeyOf(series, o)] == o.hash)
  }

  lemma DedupStep(series: nat, done: seq<Obs>, o: Obs, seen: map<Key, Hash>, deduped: seq<Obs>)
    requires Deduped(series, done, seen, deduped)
    requires KeyOf(series, o) in seen ==> seen[KeyOf(series, o)] == o.hash
    ensures KeyOf(series, o) in seen ==> Deduped(series, done + [o], seen, deduped)
    ensures KeyOf(series, o) !in seen ==> Deduped(series, done + [o], seen[KeyOf(series, o) := o.hash], deduped + [o])
  {
    assert (done + [o])[..|done + [o]| - 1] == done;
    FirstsFacts(series, done);
    KeysOfSnoc(series, done, o);
  }

  /** A clash with `seen` is a disagreement inside the batch. */
  lemma ClashIsDisagreement(series: nat, done: seq<Obs>, o: Obs, obs: seq<Obs>, seen: map<Key, Hash>, deduped: seq<Obs>)
    requires Deduped(series, done, seen, deduped) && o in obs && (forall x :: x in done ==> x in obs)
    requires KeyOf(series, o) in seen && seen[KeyOf(series, o)] != o.hash
    ensures BatchDisagrees(series, obs)
  {
    assert KeyOf(series, o) in KeysOf(series, done);
    var x :| x in done && KeyOf(series, x) == KeyOf(series, o);
    assert x in obs;
  }

  lemma DedupedAgrees(series: nat, done: seq<Obs>, seen: map<Key, Hash>, deduped: seq<Obs>)
    requires Deduped(series, done, seen, deduped)
    ensures !BatchDisagrees(series, done)
  {
  }

  lemma DisagreementGrows(series: nat, obs: seq<Obs>, i: nat, j: nat)
    requires i <= j <= |obs| && BatchDisagrees(series, obs[..i])
    ensures BatchDisagrees(series, obs[..j])
  {
    var a, b :| a in obs[..i] && b in obs[..i] && KeyOf(series, a) == KeyOf(series, b) && a.hash != b.hash;
    assert a in obs[..j] && b in obs[..j];
  }

  /** A clash met while every earlier row is clean keeps the metadata error from being raised. */
  lemma ClashStops(series: nat, obs: seq<Obs>, i: nat)
    requires i < |obs| && BatchDisagrees(series, obs[..i + 1])
    requires forall j :: 0 <= j <= i ==> obs[j].cleanKeys
    ensures BatchDisagrees(series, obs) && !MetadataFailsFirst(series, obs)
  {
    assert obs[..|obs|] == obs;
    DisagreementGrows(series, obs, i + 1, |obs|);
    forall j | i < j < |obs| ensures BatchDisagrees(series, obs[..j]) {
      DisagreementGrows(series, obs, i + 1, j);
    }
  }

  /** After an agreeing batch, table disagreements on the deduplicated rows and on the batch are the same. */
  lemma DedupKeepsTableVerdict(table: Observed, series: nat, obs: seq<Obs>)
    requires !BatchDisagrees(series, obs)
    ensures TableDisagrees(table, series, Firsts(series, obs)) <==> TableDisagrees(table, series, obs)
  {
    FirstsFacts(series, obs);
    var f := Firsts(series, obs);
    if TableDisagrees(table, series, obs) {
      var o :| o in obs && KeyOf(series, o) in table && table[KeyOf(series, o)].hash != o.hash;
      assert KeyOf(series, o) in KeysOf(series, f);
      var x :| x in f && KeyOf(series, x) == KeyOf(series, o);
      assert x in obs && x.hash == o.hash;
    }
  }

  /** What the chunk loop holds once the first `n` deduplicated rows are written. */
  ghost predicate Progress(before: Observed, now: Observed, series: nat, deduped: seq<Obs>, n: nat, inserted: set<Key>,
                           same: set<Key>) {
    && n <= |deduped|
    && now == InsertAll(before, series, deduped[..n])
    && !TableDisagrees(before, series, deduped[..n])
    && inserted == KeysOf(series, deduped[..n]) - before.Keys
    && same == KeysOf(series, deduped[..n]) * before.Keys
  }

  /** A chunk sees exactly the stored rows the whole batch would see: earlier chunks hold other keys. */
  lemma ChunkSeesOriginal(before: Observed, now: Observed, series: nat, deduped: seq<Obs>, n: nat, m: nat,
                          inserted: set<Key>, same: set<Key>)
    requires DistinctKeys(series, deduped) && n <= m <= |deduped|
    requires Progress(before, now, series, deduped, n, inserted, same)
    ensures DistinctKeys(series, deduped[n..m])
    ensures KeysOf(series, deduped[n..m]) * now.Keys == KeysOf(series, deduped[n..m]) * before.Keys
    ensures forall k :: k in before ==> k in now && now[k] == before[k]
    ensures TableDisagrees(now, series, deduped[n..m]) <==> TableDisagrees(before, series, deduped[n..m])
  {
    InsertAllFacts(before, series, deduped[..n]);
    assert KeysOf(series, deduped[n..m]) !! KeysOf(series, deduped[..n]) by {
      forall a, b | a in deduped[n..m] && b in deduped[..n] ensures KeyOf(series, a) != KeyOf(series, b) {
        var i :| 0 <= i < m - n && deduped[n..m][i] == a;
        var j :| 0 <= j < n && deduped[..n][j] == b;
        assert deduped[n + i] == a && deduped[j] == b;
      }
    }
    forall o | o in deduped[n..m] ensures KeyOf(series, o) in now <==> KeyOf(series, o) in before {
      assert KeyOf(series, o) in KeysOf(series, deduped[n..m]);
    }
  }

  lemma SplitCounts(a: set<Key>, b: set<Key>, before: set<Key>, now: set<Key>)
    requires b * now == b * before
    ensures (a - before) + (b - now) == (a + b) - before
    ensures a * before + b * now == (a + b) * before
  {
    assert forall k :: k in b ==> (k in now <==> k in b * now) && (k in before <==> k in b * before);
  }

  lemma ChunkProgress(before: Observed, now: Observed, series: nat, deduped: seq<Obs>, n: nat, m: nat,
                      inserted: set<Key>, same: set<Key>)
    requires DistinctKeys(series, deduped) && n <= m <= |deduped|
    requires Progress(before, now, series, deduped, n, inserted, same)
    requires !TableDisagrees(now, series, deduped[n..m])
    ensures Progress(before, InsertAll(now, series, deduped[n..m]), series, deduped, m,
                     inserted + (KeysOf(series, deduped[n..m]) - now.Keys),
                     same + KeysOf(series, deduped[n..m]) * now.Keys)
  {
    ChunkSeesOriginal(before, now, series, deduped, n, m, inserted, same);
    var a, b := deduped[..n], deduped[n..m];
    assert deduped[..m] == a + b;
    InsertAllSplits(before, series, a, b);
    KeysOfConcat(series, a, b);
    SplitCounts(KeysOf(series, a), KeysOf(series, b), before.Keys, now.Keys);
    assert !TableDisagrees(before, series, a + b) by {
      forall o | o in a + b && KeyOf(series, o) in before ensures before[KeyOf(series, o)].hash == o.hash {
        assert o in a || o in b;
      }
    }
  }

  /** A completed chunk loop covers the batch: every distinct key is counted once. */
  lemma ProgressCounts(before: Observed, now: Observed, series: nat, obs: seq<Obs>, inserted: set<Key>, same: set<Key>)
    requires !BatchDisagrees(series, obs)
    requires Progress(before, now, series, Firsts(series, obs), |Firsts(series, obs)|, inserted, same)
    ensures now == InsertAll(before, series, obs) && !TableDisagrees(before, series, obs)
    ensures inserted == KeysOf(series, obs) - before.Keys && same == KeysOf(series, obs) * before.Keys
    ensures |inserted| + |same| == |KeysOf(series, obs)| == |Firsts(series, obs)|
  {
    var f := Firsts(series, obs);
    assert f[..|f|] == f;
    FirstsFacts(series, obs);
    DistinctCount(series, f);
    InsertFirstsIsInsertAll(before, series, obs);
    DedupKeepsTableVerdict(before, series, obs);
    CountSplit(KeysOf(series, obs), before.Keys);
  }

  lemma CountSplit(keys: set<Key>, stored: set<Key>)
    ensures |keys - stored| + |keys * stored| == |keys|
  {
    assert keys == (keys - stored) + keys * stored;
  }

  /** A write that succeeded: the rows, the counts and the audit event. */
  ghost predicate WroteAll(table: Observed, table': Observed, audit: seq<AuditEvent>, audit': seq<AuditEvent>,
                           series: nat, obs: seq<Obs>, r: WriteResult)
    requires r.Written?
  {
    && table' == InsertAll(table, series, obs)
    && r.attempted == |obs|
    && r.inserted == |KeysOf(series, obs) - table.Keys|
    && r.inserted + r.same == |KeysOf(series, obs)|
    && audit' == audit + if obs == [] then [] else
                   [AuditEvent(series, |obs|, |KeysOf(series, obs)|, r.inserted, r.same,
                       AuditOf(table, series, Firsts(series, obs)))]
  }

  lemma FirstsNonEmpty(series: nat, obs: seq<Obs>)
    requires obs != []
    ensures Firsts(series, obs) != []
  {
    FirstsFacts(series, obs);
    assert obs[0] in obs;
    assert KeyOf(series, obs[0]) in KeysOf(series, Firsts(series, obs));
  }

  lemma NothingToWrite(table: Observed, series: nat, obs: seq<Obs>)
    requires Firsts(series, obs) == []
    ensures obs == [] && KeysOf(series, obs) == {} && !TableDisagrees(table, series, obs)
  {
    if obs != [] {
      FirstsNonEmpty(series, obs);
    }
  }

  lemma DisagreementSpreads(table: Observed, series: nat, obs: seq<Obs>, n: nat, m: nat)
    requires n <= m <= |obs| && TableDisagrees(table, series, obs[n..m])
    ensures TableDisagrees(table, series, obs)
  {
    var o :| o in obs[n..m] && KeyOf(series, o) in table && table[KeyOf(series, o)].hash != o.hash;
    assert o in obs;
  }

  /** Phase 0a. */
  method CheckStructure(obs: seq<Obs>) returns (ok: bool)
    ensures ok <==> forall o :: o in obs ==> WellFormed(o)
  {
    for i := 0 to |obs|
      invariant forall j :: 0 <= j < i ==> WellFormed(obs[j])
    {
      if !WellFormed(obs[i]) {
        return false;
      }
    }
    return true;
  }

  datatype Verdict = Fine | Malformed | Dirty | Clash

  /** The loop of phase 0b has passed the first `n` rows. */
  ghost predicate Passed(series: nat, obs: seq<Obs>, n: nat, seen: map<Key, Hash>, deduped: seq<Obs>) {
    && n <= |obs|
    && Deduped(series, obs[..n], seen, deduped)
    && (forall j :: 0 <= j < n ==> obs[j].cleanKeys)
  }

  lemma PassRow(series: nat, obs: seq<Obs>, n: nat, seen: map<Key, Hash>, deduped: seq<Obs>)
    requires Passed(series, obs, n, seen, deduped) && n < |obs|
    ensures !obs[n].cleanKeys ==> MetadataFailsFirst(series, obs)
    ensures var k := KeyOf(series, obs[n]);
            obs[n].cleanKeys ==>
              if k !in seen then Passed(series, obs, n + 1, seen[k := obs[n].hash], deduped + [obs[n]])
              else if seen[k] == obs[n].hash then Passed(series, obs, n + 1, seen, deduped)
              else BatchDisagrees(series, obs) && !MetadataFailsFirst(series, obs)
  {
    var k := KeyOf(series, obs[n]);
    assert obs[..n + 1] == obs[..n] + [obs[n]];
    DedupedAgrees(series, obs[..n], seen, deduped);
    if k in seen && seen[k] != obs[n].hash {
      ClashIsDisagreement(series, obs[..n], obs[n], obs[..n + 1], seen, deduped);
      if obs[n].cleanKeys {
        ClashStops(series, obs, n);
      }
    } else {
      DedupStep(series, obs[..n], obs[n], seen, deduped);
    }
  }

  /** Phase 0: everything that is decided before any database access. */
  method Preflight(series: nat, obs: seq<Obs>) returns (verdict: Verdict, deduped: seq<Obs>)
    ensures verdict == Malformed <==> exists o :: o in obs && !(o.wellTimed && o.oneValue)
    ensures verdict == Dirty <==> verdict != Malformed && MetadataFailsFirst(series, obs)
    ensures verdict == Clash <==> verdict != Malformed && verdict != Dirty && BatchDisagrees(series, obs)
    ensures verdict == Fine ==> deduped == Firsts(series, obs)
  {
    var wellFormed := CheckStructure(obs);
    if !wellFormed {
      return Malformed, [];
    }
    var seen: map<Key, Hash> := map[];
    deduped := [];
    for i := 0 to |obs|
      invariant Passed(series, obs, i, seen, deduped)
    {
      PassRow(series, obs, i, seen, deduped);
      if !obs[i].cleanKeys {
        return Dirty, [];
      }
      var k := KeyOf(series, obs[i]);
      if k !in seen {
        seen, deduped := seen[k := obs[i].hash], deduped + [obs[i]];
      } else if seen[k] != obs[i].hash {
        return Clash, [];
      }
    }
    assert obs[..|obs|] == obs;
    DedupedAgrees(series, obs, seen, deduped);
    verdict := Fine;
  }

  class ObservationWriter {
    var table: Observed
    var audit: seq<AuditEvent>

    constructor ()
      ensures table == map[] && audit == []
    {
      table, audit := map[], [];
    }

    /** The multi-row `INSERT ... ON CONFLICT DO NOTHING RETURNING`. */
    method InsertRows(series: nat, chunk: seq<Obs>) returns (inserted: set<Key>)
      requires DistinctKeys(series, chunk)
      modifies this`table
      ensures table == InsertAll(old(table), series, chunk)
      ensures inserted == KeysOf(series, chunk) - old(table).Keys
    {
      ghost var before := table;
      inserted := {};
      for i := 0 to |chunk|
        invariant table == InsertAll(before, series, chunk[..i])
        invariant inserted == KeysOf(series, chunk[..i]) - before.Keys
      {
        var k := KeyOf(series, chunk[i]);
        assert chunk[..i + 1][..i] == chunk[..i] && chunk[..i + 1] == chunk[..i] + [chunk[i]];
        KeysOfSnoc(series, chunk[..i], chunk[i]);
        InsertAllFacts(before, series, chunk[..i]);
        assert k !in KeysOf(series, chunk[..i]);
        if k !in table {
          table := table[k := Row(chunk[i].hash, chunk[i].payload)];
          inserted := inserted + {k};
        }
      }
      assert chunk[..|chunk|] == chunk;
    }

    /** Compare the hashes of the rows that were already there; `before` is the table before the insert. */
    method Reconcile(series: nat, chunk: seq<Obs>, inserted: set<Key>, ghost before: Observed)
      returns (agreed: bool, same: set<Key>)
      requires inserted == KeysOf(series, chunk) - before.Keys
      requires forall k :: k in before ==> k in table && table[k] == before[k]
      ensures agreed <==> !TableDisagrees(before, series, chunk)
      ensures agreed ==> same == KeysOf(series, chunk) * before.Keys
    {
      same, agreed := {}, true;
      for i := 0 to |chunk|
        invariant same == KeysOf(series, chunk[..i]) * before.Keys
        invariant forall o :: o in chunk[..i] && KeyOf(series, o) in before ==> before[KeyOf(series, o)].hash == o.hash
      {
        var k := KeyOf(series, chunk[i]);
        assert chunk[..i + 1] == chunk[..i] + [chunk[i]];
        KeysOfSnoc(series, chunk[..i], chunk[i]);
        assert chunk[i] in chunk;
        assert k in KeysOf(series, chunk);
        if k !in inserted {
          if table[k].hash != chunk[i].hash {
            agreed := false;
            return;
          }
          same := same + {k};
        }
      }
      assert chunk[..|chunk|] == chunk;
    }

    /** Insert one chunk, then reconcile it. */
    method WriteChunk(series: nat, chunk: seq<Obs>) returns (agreed: bool, inserted: set<Key>, same: set<Key>)
      requires DistinctKeys(series, chunk)
      modifies this`table
      ensures table == InsertAll(old(table), series, chunk)
      ensures agreed <==> !TableDisagrees(old(table), series, chunk)
      ensures agreed ==>
          inserted == KeysOf(series, chunk) - old(table).Keys && same == KeysOf(series, chunk) * old(table).Keys
    {
      ghost var before := table;
      inserted := InsertRows(series, chunk);
      InsertAllFacts(before, series, chunk);
      agreed, same := Reconcile(series, chunk, inserted, before);
    }

    /** Phase 2: the chunks in turn. */
    method WriteChunks(series: nat, deduped: seq<Obs>, chunkSize: nat)
      returns (agreed: bool, inserted: set<Key>, same: set<Key>)
      requires chunkSize >= 1 && DistinctKeys(series, deduped)
      modifies this`table
      ensures agreed <==> !TableDisagrees(old(table), series, deduped)
      ensures agreed ==> Progress(old(table), table, series, deduped, |deduped|, inserted, same)
    {
      ghost var before := table;
      var n := 0;
      inserted, same := {}, {};
      while n < |deduped|
        invariant Progress(before, table, series, deduped, n, inserted, same)
      {
        var m := if n + chunkSize < |deduped| then n + chunkSize else |deduped|;
        ChunkSeesOriginal(before, table, series, deduped, n, m, inserted, same);
        ghost var now := table;
        var added, found;
        agreed, added, found := WriteChunk(series, deduped[n..m]);
        if !agreed {
          DisagreementSpreads(before, series, deduped, n, m);
          return;
        }
        ChunkProgress(before, now, series, deduped, n, m, inserted, same);
        n, inserted, same := m, inserted + added, same + found;
      }
      assert deduped[..n] == deduped;
      agreed := true;
    }

    /** The per-key forensic rows, labelled from the inserted set. */
    method PerKeyRows(ghost before: Observed, series: nat, deduped: seq<Obs>, inserted: set<Key>)
      returns (keys: seq<AuditRow>)
      requires inserted == KeysOf(series, deduped) - before.Keys
      ensures keys == AuditOf(before, series, deduped)
    {
      keys := [];
      for i := 0 to |deduped|
        invariant keys == AuditOf(before, series, deduped[..i])
      {
        var k := KeyOf(series, deduped[i]);
        assert k in KeysOf(series, deduped);
        assert deduped[..i + 1][..i] == deduped[..i];
        keys := keys + [AuditRow(k, deduped[i].hash, if k in inserted then Inserted else Unchanged)];
      }
      assert deduped[..|deduped|] == deduped;
    }

    /** Phases 0a to 2 and the audit, in one transaction: a conflict rolls the table back.  `chunkSize` is 500 in
        the program; the outcome does not mention it. */
    method Write(series: nat, obs: seq<Obs>, chunkSize: nat) returns (r: WriteResult)
      requires chunkSize >= 1
      modifies this
      ensures r == Invalid <==> exists o :: o in obs && !(o.wellTimed && o.oneValue)
      ensures r == BadMetadata <==> r != Invalid && MetadataFailsFirst(series, obs)
      ensures r == Conflict <==>
                r != Invalid && r != BadMetadata
                  && (BatchDisagrees(series, obs) || TableDisagrees(old(table), series, obs))
      ensures r.Written? <==> Accepts(old(table), series, obs)
      ensures !r.Written? ==> table == old(table) && audit == old(audit)
      ensures r.Written? ==> WroteAll(old(table), table, old(audit), audit, series, obs, r)
    {
      var before := table;
      var verdict, deduped := Preflight(series, obs);
      AcceptsExactly(before, series, obs);
      if verdict != Fine {
        return match verdict case Malformed => Invalid case Dirty => BadMetadata case _ => Conflict;
      }
      FirstsFacts(series, obs);
      DedupKeepsTableVerdict(before, series, obs);
      if deduped == [] {
        NothingToWrite(before, series, obs);
        return Written(|obs|, 0, 0);
      }
      var agreed, inserted, same := WriteChunks(series, deduped, chunkSize);
      if !agreed {
        table := before;
        return Conflict;
      }
      ProgressCounts(before, table, series, obs, inserted, same);
      var keys := PerKeyRows(before, series, deduped, inserted);
      audit := audit + [AuditEvent(series, |obs|, |deduped|, |inserted|, |same|, keys)];
      r := Written(|obs|, |inserted|, |same|);
    }
  }
}
