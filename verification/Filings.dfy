/** `doc.filing` under any sequence of `put_filing` calls: revision chains, content dedup and aliases. */
module Filings {
  import opened Options

  datatype Source = Source(text: string)
  datatype Ref = Ref(text: string)
  datatype Sha = Sha(hex: string)

  /** The columns of `doc.filing` that the chain and the dedup depend on. */
  datatype Filing = Filing(
    id: nat,
    source: Source,
    ref: Ref,
    sha: Sha,
    revision: nat,
    previous: Option<nat>,
    amendment: bool)

  /** The table in insertion order; `aliases` is `metadata.republished_as`, by filing id. */
  datatype Table = Table(rows: seq<Filing>, aliases: map<nat, seq<Ref>>)

  /** One call.  `id` is the fresh uuid; the chain arguments default to None and false. */
  datatype Put = Put(id: nat, source: Source, ref: Ref, sha: Sha, previous: Option<nat>, amendment: bool)

  datatype Label = Inserted | DedupHit | IdempotentHit | AliasAdded

  function AliasesOf(t: Table, id: nat): seq<Ref> {
    if id in t.aliases then t.aliases[id] else []
  }

  // ---------------------------------------------------------------- queries

  /** Rows of one (source, ref), in insertion order. */
  function Chain(rows: seq<Filing>, source: Source, ref: Ref): seq<Filing> {
    if rows == [] then []
    else
      var rest := Chain(rows[..|rows| - 1], source, ref);
      var last := rows[|rows| - 1];
      if last.source == source && last.ref == ref then rest + [last] else rest
  }

  /** `ORDER BY revision_no DESC LIMIT 1`. */
  function Latest(rows: seq<Filing>): Option<Filing> {
    if rows == [] then None
    else
      var rest := Latest(rows[..|rows| - 1]);
      var last := rows[|rows| - 1];
      if rest.None? || rest.value.revision <= last.revision then Some(last) else rest
  }

  /** `COALESCE(MAX(revision_no), 0) + 1`. */
  function NextRevision(rows: seq<Filing>): nat {
    var latest := Latest(rows);
    if latest.None? then 1 else latest.value.revision + 1
  }

  /** The row of the unique key (source, sha256). */
  function BySha(rows: seq<Filing>, source: Source, sha: Sha): Option<Filing> {
    if rows == [] then None
    else if rows[|rows| - 1].source == source && rows[|rows| - 1].sha == sha then Some(rows[|rows| - 1])
    else BySha(rows[..|rows| - 1], source, sha)
  }

  function ById(rows: seq<Filing>, id: nat): Option<Filing> {
    if rows == [] then None
    else if rows[|rows| - 1].id == id then Some(rows[|rows| - 1])
    else ById(rows[..|rows| - 1], id)
  }

  function InsertByRevision(row: Filing, sorted: seq<Filing>): seq<Filing> {
    if sorted == [] || sorted[|sorted| - 1].revision <= row.revision then sorted + [row]
    else InsertByRevision(row, sorted[..|sorted| - 1]) + [sorted[|sorted| - 1]]
  }

  function SortByRevision(rows: seq<Filing>): seq<Filing> {
    if rows == [] then [] else InsertByRevision(rows[|rows| - 1], SortByRevision(rows[..|rows| - 1]))
  }

  /** `amendment_chain`: every revision of the filing's ref, oldest first; None for an unknown id. */
  function AmendmentChain(t: Table, id: nat): Option<seq<Filing>> {
    var row := ById(t.rows, id);
    if row.None? then None else Some(SortByRevision(Chain(t.rows, row.value.source, row.value.ref)))
  }

  // ---------------------------------------------------------------- put_filing

  /** Step 3a fills the defaulted chain fields from the latest revision of the exact ref. */
  function NewRow(t: Table, p: Put): Filing {
    var prior := Latest(Chain(t.rows, p.source, p.ref));
    var links := prior.Some? && prior.value.sha != p.sha;
    Filing(p.id, p.source, p.ref, p.sha, NextRevision(Chain(t.rows, p.source, p.ref)),
           if links && p.previous.None? then Some(prior.value.id) else p.previous,
           p.amendment || links)
  }

  /** The upsert: insert, or the CASE of its conflict branch. */
  function Upsert(t: Table, p: Put): Table {
    var existing := BySha(t.rows, p.source, p.sha);
    if existing.None? then Table(t.rows + [NewRow(t, p)], t.aliases)
    else if existing.value.ref == p.ref then t
    else if p.ref in AliasesOf(t, existing.value.id) then t
    else t.(aliases := t.aliases[existing.value.id := AliasesOf(t, existing.value.id) + [p.ref]])
  }

  /** The audit label, computed in Python from the row read before the upsert. */
  function LabelOf(t: Table, p: Put): Label {
    var pre := BySha(t.rows, p.source, p.sha);
    if pre.None? then Inserted
    else if pre.value.ref == p.ref then DedupHit
    else if p.ref in AliasesOf(t, pre.value.id) then IdempotentHit
    else AliasAdded
  }

  const NOTHING := Table([], map[])

  function Puts(calls: seq<Put>): Table {
    if calls == [] then NOTHING else Upsert(Puts(calls[..|calls| - 1]), calls[|calls| - 1])
  }

  /** uuid4 ids do not repeat. */
  ghost predicate FreshIds(calls: seq<Put>) {
    forall i, j :: 0 <= i < j < |calls| ==> calls[i].id != calls[j].id
  }

  ghost predicate DefaultChainArguments(calls: seq<Put>) {
    forall i :: 0 <= i < |calls| ==> calls[i].previous.None? && !calls[i].amendment
  }

  // ---------------------------------------------------------------- the invariants

  /** Revisions 1..n, each pointing to the one before, amendments from the second on. */
  ghost predicate Linked(chain: seq<Filing>) {
    forall k :: 0 <= k < |chain| ==>
      && chain[k].revision == k + 1
      && chain[k].previous == (if k == 0 then None else Some(chain[k - 1].id))
      && (chain[k].amendment <==> k > 0)
  }

  ghost predicate ChainsLinked(t: Table) {
    forall source, ref :: Linked(Chain(t.rows, source, ref))
  }

  ghost predicate KeysUnique(t: Table) {
    && (forall i, j :: 0 <= i < j < |t.rows| ==> t.rows[i].id != t.rows[j].id)
    && (forall i, j :: 0 <= i < j < |t.rows| && t.rows[i].source == t.rows[j].source ==> t.rows[i].sha != t.rows[j].sha)
  }

  /** Aliases belong to rows, repeat nothing and never hold the row's own ref. */
  ghost predicate AliasesSound(t: Table) {
    forall row :: row in t.rows ==> row.ref !in AliasesOf(t, row.id) && NoRepeats(AliasesOf(t, row.id))
  }

  ghost predicate NoRepeats(refs: seq<Ref>) {
    forall a, b :: 0 <= a < b < |refs| ==> refs[a] != refs[b]
  }

  ghost predicate HasId(rows: seq<Filing>, id: nat) {
    exists r :: r in rows && r.id == id
  }

  ghost predicate AliasesAttached(t: Table) {
    forall id :: id in t.aliases ==> HasId(t.rows, id)
  }

  /** The row answers lookups of this ref, directly or through an alias. */
  ghost predicate Carries(t: Table, row: Filing, ref: Ref) {
    row.ref == ref || ref in AliasesOf(t, row.id)
  }

  /** A call put this content under this ref. */
  ghost predicate WasPut(calls: seq<Put>, source: Source, ref: Ref, sha: Sha) {
    exists i :: 0 <= i < |calls| && calls[i].source == source && calls[i].ref == ref && calls[i].sha == sha
  }

  /** Whatever ref a row carries, its content was put under it. */
  ghost predicate CarriedWasPut(t: Table, calls: seq<Put>) {
    forall row, ref :: row in t.rows && Carries(t, row, ref) ==> WasPut(calls, row.source, ref, row.sha)
  }

  /** Some row holds this call's content and carries its ref. */
  ghost predicate Stored(t: Table, p: Put) {
    exists row :: row in t.rows && row.source == p.source && row.sha == p.sha && Carries(t, row, p.ref)
  }

  ghost predicate RefsExact(t: Table, calls: seq<Put>) {
    CarriedWasPut(t, calls) && forall k :: 0 <= k < |calls| ==> Stored(t, calls[k])
  }

  // ---------------------------------------------------------------- query lemmas

  lemma {:induction false} ByShaFinds(rows: seq<Filing>, source: Source, sha: Sha)
    ensures var r := BySha(rows, source, sha);
            && (r.Some? ==> r.value in rows && r.value.source == source && r.value.sha == sha)
            && (r.None? ==> forall i :: 0 <= i < |rows| && rows[i].source == source ==> rows[i].sha != sha)
  {
    if rows != [] {
      ByShaFinds(rows[..|rows| - 1], source, sha);
    }
  }

  lemma {:induction false} ByIdFinds(rows: seq<Filing>, id: nat)
    ensures var r := ById(rows, id);
            && (r.Some? ==> r.value in rows && r.value.id == id)
            && (r.None? ==> forall i :: 0 <= i < |rows| ==> rows[i].id != id)
  {
    if rows != [] {
      ByIdFinds(rows[..|rows| - 1], id);
    }
  }

  /** A chain holds exactly the rows of its (source, ref). */
  lemma {:induction false} ChainMembers(rows: seq<Filing>, source: Source, ref: Ref)
    ensures forall r :: r in Chain(rows, source, ref) <==> r in rows && r.source == source && r.ref == ref
  {
    if rows != [] {
      ChainMembers(rows[..|rows| - 1], source, ref);
      assert rows == rows[..|rows| - 1] + [rows[|rows| - 1]];
    }
  }

  /** The latest row of a linked chain is its end. */
  lemma {:induction false} LatestOfLinked(chain: seq<Filing>)
    requires forall k :: 0 <= k < |chain| ==> chain[k].revision == k + 1
    ensures Latest(chain) == if chain == [] then None else Some(chain[|chain| - 1])
  {
    if chain != [] {
      LatestOfLinked(chain[..|chain| - 1]);
    }
  }

  lemma {:induction false} SortedStays(chain: seq<Filing>)
    requires forall k :: 0 <= k < |chain| ==> chain[k].revision == k + 1
    ensures SortByRevision(chain) == chain
  {
    if chain != [] {
      SortedStays(chain[..|chain| - 1]);
      assert chain == chain[..|chain| - 1] + [chain[|chain| - 1]];
    }
  }

  // ---------------------------------------------------------------- one call

  lemma AppendExtendsChain(rows: seq<Filing>, row: Filing, source: Source, ref: Ref)
    ensures Chain(rows + [row], source, ref) ==
            if row.source == source && row.ref == ref then Chain(rows, source, ref) + [row]
                else Chain(rows, source, ref)
  {
    assert (rows + [row])[..|rows|] == rows;
  }

  /** A call extends the chain of its own ref by its new row, or no chain at all when its content is known. */
  lemma UpsertExtendsChain(t: Table, p: Put, source: Source, ref: Ref)
    ensures Chain(Upsert(t, p).rows, source, ref) == Chain(t.rows, source, ref)
              + if BySha(t.rows, p.source, p.sha).None? && source == p.source && ref == p.ref
                  then [NewRow(t, p)] else []
  {
    AppendExtendsChain(t.rows, NewRow(t, p), source, ref);
  }

  /** The new row continues a linked chain. */
  lemma NewRowLinks(t: Table, p: Put)
    requires Linked(Chain(t.rows, p.source, p.ref)) && BySha(t.rows, p.source, p.sha).None? && p.previous.None?
    requires !p.amendment
    ensures Linked(Chain(t.rows, p.source, p.ref) + [NewRow(t, p)])
  {
    var chain := Chain(t.rows, p.source, p.ref);
    LatestOfLinked(chain);
    if chain != [] {
      assert chain[|chain| - 1] in chain;
      ChainMembers(t.rows, p.source, p.ref);
      ByShaFinds(t.rows, p.source, p.sha);
    }
  }

  lemma UpsertKeepsChains(t: Table, p: Put)
    requires ChainsLinked(t) && p.previous.None? && !p.amendment
    ensures ChainsLinked(Upsert(t, p))
  {
    forall source, ref ensures Linked(Chain(Upsert(t, p).rows, source, ref)) {
      assert Linked(Chain(t.rows, source, ref));
      UpsertExtendsChain(t, p, source, ref);
      if BySha(t.rows, p.source, p.sha).None? && source == p.source && ref == p.ref {
        NewRowLinks(t, p);
      }
    }
  }

  lemma UpsertKeepsKeys(t: Table, p: Put)
    requires KeysUnique(t) && !HasId(t.rows, p.id)
    ensures KeysUnique(Upsert(t, p))
  {
    assert forall i :: 0 <= i < |t.rows| ==> t.rows[i] in t.rows;
    ByShaFinds(t.rows, p.source, p.sha);
  }

  lemma UpsertKeepsAliases(t: Table, p: Put)
    requires KeysUnique(t) && AliasesSound(t) && AliasesAttached(t) && !HasId(t.rows, p.id)
    ensures AliasesSound(Upsert(t, p))
  {
    ByShaFinds(t.rows, p.source, p.sha);
    assert p.id !in t.aliases;
    var t' := Upsert(t, p);
    forall row | row in t'.rows ensures row.ref !in AliasesOf(t', row.id) && NoRepeats(AliasesOf(t', row.id)) {
      if row in t.rows && AliasesOf(t', row.id) != AliasesOf(t, row.id) {
        SameIdSameRow(t, row, BySha(t.rows, p.source, p.sha).value);
      }
    }
  }

  lemma SameIdSameRow(t: Table, a: Filing, b: Filing)
    requires KeysUnique(t) && a in t.rows && b in t.rows && a.id == b.id
    ensures a == b
  {
    var i :| 0 <= i < |t.rows| && t.rows[i] == a;
    var j :| 0 <= j < |t.rows| && t.rows[j] == b;
    assert i == j;
  }

  lemma UpsertKeepsAttached(t: Table, p: Put)
    requires AliasesAttached(t)
    ensures AliasesAttached(Upsert(t, p))
  {
    ByShaFinds(t.rows, p.source, p.sha);
    var t' := Upsert(t, p);
    forall id | id in t'.aliases ensures HasId(t'.rows, id) {
      if id in t.aliases {
        var r :| r in t.rows && r.id == id;
        assert r in t'.rows;
      }
    }
  }

  lemma WasPutStays(calls: seq<Put>, p: Put, source: Source, ref: Ref, sha: Sha)
    requires WasPut(calls, source, ref, sha)
    ensures WasPut(calls + [p], source, ref, sha)
  {
    var k :| 0 <= k < |calls| && calls[k].source == source && calls[k].ref == ref && calls[k].sha == sha;
    assert (calls + [p])[k] == calls[k];
  }

  /** An upsert gives a row at most the ref of the call, and only if the call brought its content. */
  lemma CarriedBefore(t: Table, p: Put, row: Filing, ref: Ref)
    requires KeysUnique(t) && AliasesAttached(t) && !HasId(t.rows, p.id)
    requires row in Upsert(t, p).rows && Carries(Upsert(t, p), row, ref)
    ensures || (row in t.rows && Carries(t, row, ref))
            || (row.source == p.source && row.sha == p.sha && ref == p.ref)
  {
    ByShaFinds(t.rows, p.source, p.sha);
    var pre := BySha(t.rows, p.source, p.sha);
    if pre.Some? && row.id == pre.value.id {
      var i :| 0 <= i < |t.rows| && t.rows[i] == row;
      var j :| 0 <= j < |t.rows| && t.rows[j] == pre.value;
      assert i == j;
    }
  }

  lemma UpsertCarriesPut(t: Table, calls: seq<Put>, p: Put)
    requires KeysUnique(t) && AliasesAttached(t) && !HasId(t.rows, p.id) && CarriedWasPut(t, calls)
    ensures CarriedWasPut(Upsert(t, p), calls + [p])
  {
    forall row, ref | row in Upsert(t, p).rows && Carries(Upsert(t, p), row, ref)
      ensures WasPut(calls + [p], row.source, ref, row.sha)
    {
      CarriedBefore(t, p, row, ref);
      if row in t.rows && Carries(t, row, ref) {
        WasPutStays(calls, p, row.source, ref, row.sha);
      } else {
        assert (calls + [p])[|calls|] == p;
      }
    }
  }

  lemma UpsertKeepsStored(t: Table, p: Put, q: Put)
    requires Stored(t, q)
    ensures Stored(Upsert(t, p), q)
  {
    var row :| row in t.rows && row.source == q.source && row.sha == q.sha && Carries(t, row, q.ref);
    assert row in Upsert(t, p).rows && Carries(Upsert(t, p), row, q.ref);
  }

  lemma UpsertStores(t: Table, p: Put)
    ensures Stored(Upsert(t, p), p)
  {
    ByShaFinds(t.rows, p.source, p.sha);
    var pre := BySha(t.rows, p.source, p.sha);
    var row := if pre.None? then NewRow(t, p) else pre.value;
    assert row in Upsert(t, p).rows && Carries(Upsert(t, p), row, p.ref);
  }

  lemma UpsertKeepsRefs(t: Table, calls: seq<Put>, p: Put)
    requires KeysUnique(t) && AliasesAttached(t) && !HasId(t.rows, p.id) && RefsExact(t, calls)
    ensures RefsExact(Upsert(t, p), calls + [p])
  {
    UpsertCarriesPut(t, calls, p);
    UpsertStores(t, p);
    forall k | 0 <= k < |calls| ensures Stored(Upsert(t, p), calls[k]) {
      UpsertKeepsStored(t, p, calls[k]);
    }
  }

  /** The row holds the content of the call. */
  predicate Holds(t: Table, p: Put, r: Filing) {
    r in t.rows && r.source == p.source && r.sha == p.sha
  }

  /** What the label says is what the SQL did. */
  lemma LabelMatchesUpsert(t: Table, p: Put)
    ensures var t' := Upsert(t, p);
            match LabelOf(t, p)
            case Inserted => |t'.rows| == |t.rows| + 1 && t'.rows[|t.rows|].id == p.id && t'.aliases == t.aliases
            case DedupHit => t' == t && exists r :: Holds(t, p, r) && r.ref == p.ref
            case IdempotentHit => t' == t && exists r :: Holds(t, p, r) && p.ref in AliasesOf(t, r.id)
            case AliasAdded =>
              && t'.rows == t.rows && t' != t
              && exists r :: Holds(t, p, r) && r.ref != p.ref && AliasesOf(t', r.id) == AliasesOf(t, r.id) + [p.ref]
  {
    ByShaFinds(t.rows, p.source, p.sha);
    var pre := BySha(t.rows, p.source, p.sha);
    if LabelOf(t, p).AliasAdded? {
      var t' := Upsert(t, p);
      assert AliasesOf(t', pre.value.id) == AliasesOf(t, pre.value.id) + [p.ref];
      assert |AliasesOf(t', pre.value.id)| == |AliasesOf(t, pre.value.id)| + 1;
    }
  }

  // ---------------------------------------------------------------- any sequence of calls

  /** Every row was created by one of the calls. */
  lemma {:induction false} RowsComeFromCalls(calls: seq<Put>, id: nat)
    requires HasId(Puts(calls).rows, id)
    ensures exists i :: 0 <= i < |calls| && calls[i].id == id
  {
    if calls != [] {
      var before, p := calls[..|calls| - 1], calls[|calls| - 1];
      var r :| r in Puts(calls).rows && r.id == id;
      if r in Puts(before).rows {
        RowsComeFromCalls(before, id);
        var i :| 0 <= i < |before| && before[i].id == id;
        assert calls[i].id == id;
      } else {
        assert p.id == id;
      }
    }
  }

  ghost predicate TableSound(t: Table, calls: seq<Put>) {
    KeysUnique(t) && AliasesSound(t) && AliasesAttached(t) && RefsExact(t, calls)
  }

  lemma UpsertKeepsTable(t: Table, calls: seq<Put>, p: Put)
    requires TableSound(t, calls) && !HasId(t.rows, p.id)
    ensures TableSound(Upsert(t, p), calls + [p])
  {
    UpsertKeepsKeys(t, p);
    UpsertKeepsAliases(t, p);
    UpsertKeepsAttached(t, p);
    UpsertKeepsRefs(t, calls, p);
  }

  /** Content is stored once per source, and refs resolve to content that was put under them. */
  lemma {:induction false} PutsKeepTable(calls: seq<Put>)
    requires FreshIds(calls)
    ensures TableSound(Puts(calls), calls)
  {
    if calls == [] {
      NothingIsSound();
    } else {
      var before, p := calls[..|calls| - 1], calls[|calls| - 1];
      assert calls == before + [p] && Puts(calls) == Upsert(Puts(before), p);
      PutsKeepTable(before);
      NewIdIsFresh(calls);
      UpsertKeepsTable(Puts(before), before, p);
    }
  }

  lemma NothingIsSound()
    ensures TableSound(NOTHING, [])
  {
  }

  lemma NewIdIsFresh(calls: seq<Put>)
    requires FreshIds(calls) && calls != []
    ensures !HasId(Puts(calls[..|calls| - 1]).rows, calls[|calls| - 1].id)
  {
    var before, p := calls[..|calls| - 1], calls[|calls| - 1];
    if HasId(Puts(before).rows, p.id) {
      RowsComeFromCalls(before, p.id);
      assert false;
    }
  }

  lemma {:induction false} PutsKeepChains(calls: seq<Put>)
    requires DefaultChainArguments(calls)
    ensures ChainsLinked(Puts(calls))
  {
    if calls != [] {
      PutsKeepChains(calls[..|calls| - 1]);
      UpsertKeepsChains(Puts(calls[..|calls| - 1]), calls[|calls| - 1]);
    }
  }

  lemma ByIdGivesRow(t: Table, row: Filing)
    requires KeysUnique(t) && row in t.rows
    ensures ById(t.rows, row.id) == Some(row)
  {
    ByIdFinds(t.rows, row.id);
    var i :| 0 <= i < |t.rows| && t.rows[i] == row;
    var j :| 0 <= j < |t.rows| && t.rows[j] == ById(t.rows, row.id).value;
    assert i == j;
  }

  /** `amendment_chain` from any member: one linear chain, revisions 1..n, holding exactly the rows of
      that member's ref. */
  lemma AmendmentChainIsLinear(calls: seq<Put>, row: Filing)
    requires FreshIds(calls) && DefaultChainArguments(calls) && row in Puts(calls).rows
    ensures var t := Puts(calls);
            && AmendmentChain(t, row.id).Some?
            && var chain := AmendmentChain(t, row.id).value;
               && Linked(chain) && row in chain
               && (forall r :: r in chain <==> r in t.rows && r.source == row.source && r.ref == row.ref)
               && (forall other :: other in chain ==> AmendmentChain(t, other.id) == Some(chain))
  {
    var t := Puts(calls);
    PutsKeepTable(calls);
    PutsKeepChains(calls);
    var chain := Chain(t.rows, row.source, row.ref);
    assert Linked(chain);
    SortedStays(chain);
    ChainMembers(t.rows, row.source, row.ref);
    ByIdGivesRow(t, row);
    forall other | other in chain ensures AmendmentChain(t, other.id) == Some(chain) {
      ByIdGivesRow(t, other);
    }
  }

  // ---------------------------------------------------------------- find_by_source_ref

  /** The ORDER BY of the public lookup: direct matches first, then the higher revision. */
  predicate Outranks(a: Filing, b: Filing, ref: Ref) {
    (a.ref == ref && b.ref != ref) || ((a.ref == ref <==> b.ref == ref) && a.revision > b.revision)
  }

  /** Whatever row the database may return first. */
  ghost predicate Answers(t: Table, source: Source, ref: Ref, row: Filing) {
    && row in t.rows && row.source == source && Carries(t, row, ref)
    && forall o :: o in t.rows && o.source == source && Carries(t, o, ref) ==> !Outranks(o, row, ref)
  }

  function FindBySourceRef(t: Table, source: Source, ref: Ref): Option<Filing>
    decreases |t.rows|
  {
    if t.rows == [] then None
    else
      var rest := FindBySourceRef(t.(rows := t.rows[..|t.rows| - 1]), source, ref);
      var last := t.rows[|t.rows| - 1];
      if last.source == source && (last.ref == ref || ref in AliasesOf(t, last.id))
        && (rest.None? || Outranks(last, rest.value, ref))
      then Some(last) else rest
  }

  lemma {:induction false} FindAnswers(t: Table, source: Source, ref: Ref)
    ensures var r := FindBySourceRef(t, source, ref);
            && (r.Some? ==> Answers(t, source, ref, r.value))
            && (r.None? ==> forall o :: o in t.rows && o.source == source ==> !Carries(t, o, ref))
    decreases |t.rows|
  {
    if t.rows != [] {
      var before := t.(rows := t.rows[..|t.rows| - 1]);
      FindAnswers(before, source, ref);
      assert forall o :: o in t.rows ==> o in before.rows || o == t.rows[|t.rows| - 1];
      assert forall o :: Carries(t, o, ref) == Carries(before, o, ref);
    }
  }

  /** With a direct match the lookup returns one, and of those the highest revision; without one it returns an alias
      match, again of the highest revision. */
  lemma FindPrefersDirectThenNewest(t: Table, source: Source, ref: Ref)
    ensures var r := FindBySourceRef(t, source, ref);
            if exists o :: o in t.rows && o.source == source && o.ref == ref then
              && r.Some? && r.value in t.rows && r.value.source == source && r.value.ref == ref
              && forall o :: o in t.rows && o.source == source && o.ref == ref ==> o.revision <= r.value.revision
            else
              r.Some? ==>
                && r.value in t.rows && r.value.source == source && ref in AliasesOf(t, r.value.id)
                && forall o :: o in t.rows && o.source == source && ref in AliasesOf(t, o.id) ==>
                     o.revision <= r.value.revision
  {
    FindAnswers(t, source, ref);
    var r := FindBySourceRef(t, source, ref);
    if o :| o in t.rows && o.source == source && o.ref == ref {
      assert Carries(t, o, ref);
    }
    forall o | r.Some? && o in t.rows && o.source == source && Carries(t, o, ref) ensures !Outranks(o, r.value, ref) {
    }
  }

  /** Explicit chain arguments are stored as they are given. */
  lemma ExplicitArgumentsAreKept(t: Table, p: Put)
    requires BySha(t.rows, p.source, p.sha).None?
    ensures var row := Upsert(t, p).rows[|t.rows|];
            && row.id == p.id && row.source == p.source && row.ref == p.ref && row.sha == p.sha
            && (p.previous.Some? ==> row.previous == p.previous)
            && (p.amendment ==> row.amendment)
  {
  }

  /** Every ref ever put resolves, and whatever it resolves to was put under that ref; a direct match
      is preferred whenever there is one. */
  lemma RefsResolve(calls: seq<Put>, k: nat)
    requires FreshIds(calls) && k < |calls|
    ensures var t, source, ref := Puts(calls), calls[k].source, calls[k].ref;
            && FindBySourceRef(t, source, ref).Some?
            && (forall row :: Answers(t, source, ref, row) ==>
                  && WasPut(calls, source, ref, row.sha)
                  && ((exists o :: o in t.rows && o.source == source && o.ref == ref) ==> row.ref == ref))
  {
    var t, source, ref := Puts(calls), calls[k].source, calls[k].ref;
    PutsKeepTable(calls);
    FindAnswers(t, source, ref);
    assert Stored(t, calls[k]);
    forall row | Answers(t, source, ref, row)
      ensures WasPut(calls, source, ref, row.sha)
      ensures (exists o :: o in t.rows && o.source == source && o.ref == ref) ==> row.ref == ref
    {
      if o :| o in t.rows && o.source == source && o.ref == ref {
        assert Carries(t, o, ref) && !Outranks(o, row, ref);
      }
    }
  }
}
