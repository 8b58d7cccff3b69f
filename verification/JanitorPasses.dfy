/** The janitor's pass 2 re-drive and pass 4 stream walk, run as the sequential code that they are. */
module JanitorPasses {
  import opened Options
  import opened RedisIds
  import opened Deadletter
  import opened LogRows
  import opened Agreement
  import StreamScan

  // ---------------------------------------------------------------- the scan meets its specification

  /** The items of a stream list exactly its live entries. */
  ghost predicate Lists(items: seq<StreamScan.Item<Tag>>, st: Store, stream: StreamName) {
    && StreamScan.Ascending(items)
    && (forall i :: 0 <= i < |items| ==> Entry(stream, items[i].id, items[i].value) in st.live)
    && (forall e :: e in st.live && e.stream == stream ==> StreamScan.Item(e.id, e.tag) in items)
  }

  /** What the paged walk returns is the scan answer that the protocol steps rely on. */
  lemma WalkGivesScanAnswer(items: seq<StreamScan.Item<Tag>>, st: Store, stream: StreamName, lower: Id, fid: nat)
    requires Lists(items, st, stream)
    ensures ScanAnswer(st, stream, lower, fid, StreamScan.FirstFrom(items, lower, tag => tag == Failure(fid)))
  {
    var wanted: Tag -> bool := tag => tag == Failure(fid);
    var found := StreamScan.FirstFrom(items, lower, wanted);
    StreamScan.FirstFromIsLeast(items, lower, wanted);
    forall e | e in st.live && e.stream == stream && e.tag == Failure(fid)
      ensures found.None? ==> Before(e.id, lower)
      ensures found.Some? && AtMost(lower, e.id) ==> AtMost(found.value, e.id)
    {
      var i :| 0 <= i < |items| && items[i] == StreamScan.Item(e.id, e.tag);
      assert wanted(items[i].value);
    }
    if found.Some? {
      var i :| 0 <= i < |items| && items[i].id == found.value && wanted(items[i].value);
      assert Entry(stream, items[i].id, items[i].value) == Entry(stream, found.value, Failure(fid));
    }
  }

  // ---------------------------------------------------------------- pass 4 as a fold

  /** One entry of the walk; entries without a failure id are skipped. */
  function Pass4Step(st: Store, e: Entry): Store {
    if e.tag.Failure? then Pass4Store(st, e) else st
  }

  /** What the walk settles: an unparsable failure id raises and ends the pass, and an entry whose transaction or XDEL
      fails is rolled back, logged and passed over. */
  function Walked(entries: seq<Entry>, failing: set<Entry>): seq<Entry> {
    if entries == [] || entries[0].tag.Garbled? then []
    else (if entries[0] in failing then [] else [entries[0]]) + Walked(entries[1..], failing)
  }

  function Pass4Fold(st: Store, entries: seq<Entry>): Store
    decreases |entries|
  {
    if entries == [] then st else Pass4Fold(Pass4Step(st, entries[0]), entries[1..])
  }

  ghost predicate IsCanonical(st: Store, e: Entry) {
    e.tag.Failure? && e.tag.fid in st.index && st.index[e.tag.fid] == e.id
  }

  lemma Pass4StepFacts(st: Store, e: Entry)
    requires LogMatchesIndex(st)
    ensures var st' := Pass4Step(st, e);
            && LogMatchesIndex(st') && Grows(st, st') && st'.intents == st.intents
            && st'.live <= st.live && (forall o :: o in st.live && (o != e || IsCanonical(st, o)) ==> o in st'.live)
            && (e.tag.Failure? && e in st'.live ==> IsCanonical(st', e))
            && (forall f :: f in st'.index && f !in st.index ==> e.tag == Failure(f) && st'.index[f] == e.id)
  {
  }

  lemma {:induction false} Pass4FoldFacts(st: Store, entries: seq<Entry>)
    requires LogMatchesIndex(st)
    ensures var st' := Pass4Fold(st, entries);
            && LogMatchesIndex(st') && Grows(st, st') && st'.intents == st.intents && st'.live <= st.live
    decreases |entries|
  {
    if entries != [] {
      Pass4StepFacts(st, entries[0]);
      Pass4FoldFacts(Pass4Step(st, entries[0]), entries[1..]);
      GrowsIsTransitive(st, Pass4Step(st, entries[0]), Pass4Fold(st, entries));
    }
  }

  /** Pass 4 never deletes the entry that an index row names, before or during the pass. */
  lemma {:induction false} Pass4KeepsCanonical(st: Store, entries: seq<Entry>, o: Entry)
    requires LogMatchesIndex(st) && o in st.live && IsCanonical(st, o)
    ensures o in Pass4Fold(st, entries).live && IsCanonical(Pass4Fold(st, entries), o)
    decreases |entries|
  {
    if entries != [] {
      Pass4StepFacts(st, entries[0]);
      Pass4KeepsCanonical(Pass4Step(st, entries[0]), entries[1..], o);
    }
  }

  /** Every walked entry that survives is its failure's indexed entry. */
  lemma {:induction false} Pass4Settles(st: Store, entries: seq<Entry>, e: Entry)
    requires LogMatchesIndex(st) && e in entries && e.tag.Failure?
    ensures e in Pass4Fold(st, entries).live ==> IsCanonical(Pass4Fold(st, entries), e)
    decreases |entries|
  {
    var st1 := Pass4Step(st, entries[0]);
    Pass4StepFacts(st, entries[0]);
    Pass4FoldFacts(st1, entries[1..]);
    if e == entries[0] {
      if e in st1.live {
        Pass4KeepsCanonical(st1, entries[1..], e);
      }
    } else {
      Pass4Settles(st1, entries[1..], e);
    }
  }

  /** The first walked entry of a logged failure without an index row is adopted: index and log name it, and it
      stays. */
  lemma {:induction false} Pass4AdoptsFirst(st: Store, entries: seq<Entry>, i: nat, fid: nat)
    requires LogMatchesIndex(st) && fid in st.log && fid !in st.index
    requires i < |entries| && entries[i].tag == Failure(fid)
    requires forall j :: 0 <= j < i ==> entries[j].tag != Failure(fid)
    ensures var st' := Pass4Fold(st, entries);
            && fid in st'.index && st'.index[fid] == entries[i].id
            && fid in st'.log && st'.log[fid].rid == Some(entries[i].id)
            && (entries[i] in st.live ==> entries[i] in st'.live)
    decreases |entries|
  {
    var st1 := Pass4Step(st, entries[0]);
    Pass4StepFacts(st, entries[0]);
    if i == 0 {
      Pass4FoldFacts(st1, entries[1..]);
      if entries[0] in st.live {
        Pass4KeepsCanonical(st1, entries[1..], entries[0]);
      }
    } else {
      Pass4AdoptsFirst(st1, entries[1..], i - 1, fid);
    }
  }

  /** An entry that the walk does not reach stays, and a new index row names a walked entry. */
  lemma {:induction false} Pass4LeavesOthers(st: Store, entries: seq<Entry>, o: Entry, f: nat)
    requires LogMatchesIndex(st) && o in st.live && o !in entries
    ensures var st' := Pass4Fold(st, entries);
            && o in st'.live
            && (f in st'.index && f !in st.index ==>
                exists e :: e in entries && e.tag == Failure(f) && st'.index[f] == e.id)
    decreases |entries|
  {
    if entries != [] {
      var st1, st' := Pass4Step(st, entries[0]), Pass4Fold(st, entries);
      Pass4StepFacts(st, entries[0]);
      Pass4LeavesOthers(st1, entries[1..], o, f);
      Pass4FoldFacts(st1, entries[1..]);
      if f in st'.index && f !in st.index {
        if f in st1.index {
          assert entries[0] in entries;
        } else {
          var e :| e in entries[1..] && e.tag == Failure(f) && st'.index[f] == e.id;
          assert e in entries;
        }
      }
    }
  }

  /** A walk over canonical or untagged entries changes nothing. */
  lemma {:induction false} Pass4Rests(st: Store, entries: seq<Entry>)
    requires forall e :: e in entries && e.tag.Failure? ==> IsCanonical(st, e)
    ensures Pass4Fold(st, entries) == st
    decreases |entries|
  {
    if entries != [] {
      assert entries[0] in entries;
      Pass4Rests(st, entries[1..]);
    }
  }

  lemma {:induction false} WalkedMembers(entries: seq<Entry>, failing: set<Entry>)
    ensures forall e :: e in Walked(entries, failing) ==> e in entries && e !in failing && !e.tag.Garbled?
    ensures (forall e :: e in entries ==> !e.tag.Garbled? && e !in failing) ==> Walked(entries, failing) == entries
  {
    if entries != [] {
      WalkedMembers(entries[1..], failing);
      assert entries == [entries[0]] + entries[1..];
    }
  }

  /** Every failure has at most its indexed entry. */
  ghost predicate Settled(st: Store) {
    forall e :: e in st.live && e.tag.Failure? ==> IsCanonical(st, e)
  }

  /** Pass 4 looks at the streams that some log row names. */
  ghost predicate Logs(st: Store, stream: StreamName) {
    exists f :: f in st.log && st.log[f].msg.stream == stream
  }

  /** The listing is of live entries of those streams, and covers them all. */
  ghost predicate ListsAll(st: Store, entries: seq<Entry>) {
    forall e :: e in entries <==> e in st.live && Logs(st, e.stream)
  }

  /** Nothing in the other streams needs settling: an entry with a failure id is in its failure's stream. */
  lemma OtherStreamsAreUntagged(st: Store, e: Entry)
    requires StoreSound(st) && e in st.live && e.tag.Failure?
    ensures Logs(st, e.stream)
  {
    assert e in st.ever;
  }

  /** No entry that needs reconciling lies behind a garbled one or fails. */
  ghost predicate ReachesUnsettled(st: Store, entries: seq<Entry>, failing: set<Entry>) {
    forall e :: e in entries && e.tag.Failure? && !IsCanonical(st, e) ==> e in Walked(entries, failing)
  }

  /** An entry that the walk does not settle is its failure's entry afterwards iff it was before. */
  lemma UnreachedIsAsBefore(st: Store, entries: seq<Entry>, failing: set<Entry>, e: Entry)
    requires StoreSound(st) && ListsAll(st, entries)
    requires e in st.live && e.tag.Failure? && e !in Walked(entries, failing)
    ensures var st' := Pass4Fold(st, Walked(entries, failing));
            e in st'.live && (IsCanonical(st', e) <==> IsCanonical(st, e))
  {
    Pass4LeavesOthers(st, Walked(entries, failing), e, e.tag.fid);
    Pass4FoldFacts(st, Walked(entries, failing));
    WalkedMembers(entries, failing);
    forall o | o in Walked(entries, failing) && o.tag == e.tag ensures o.id != e.id {
      assert o in st.ever && e in st.ever && o != e;
    }
  }

  /** With no routing in flight and a window covering the streams, pass 4 leaves each failure with at most its
      indexed entry if and only if no unsettled entry lies behind a garbled one or fails. */
  lemma Pass4SettlesExactly(st: Store, entries: seq<Entry>, failing: set<Entry>)
    requires StoreSound(st) && ListsAll(st, entries)
    ensures Settled(Pass4Fold(st, Walked(entries, failing))) <==> ReachesUnsettled(st, entries, failing)
  {
    var walked := Walked(entries, failing);
    var st' := Pass4Fold(st, walked);
    Pass4FoldFacts(st, walked);
    forall e | e in st'.live && e.tag.Failure? && ReachesUnsettled(st, entries, failing) ensures IsCanonical(st', e) {
      OtherStreamsAreUntagged(st, e);
      if e in walked {
        Pass4Settles(st, walked, e);
      } else {
        UnreachedIsAsBefore(st, entries, failing, e);
      }
    }
    forall e | e in entries && e.tag.Failure? && !IsCanonical(st, e) && Settled(st') ensures e in walked {
      if e !in walked {
        UnreachedIsAsBefore(st, entries, failing, e);
      }
    }
  }

  /** A pass that settled keeps every indexed entry and the agreement, and a second pass over any listing of what
      is left changes nothing. */
  lemma Pass4IsIdempotent(st: Store, entries: seq<Entry>, failing: set<Entry>, again: seq<Entry>, failing': set<Entry>)
    requires StoreSound(st) && ListsAll(st, entries) && ReachesUnsettled(st, entries, failing)
    requires forall e :: e in again ==> e in Pass4Fold(st, Walked(entries, failing)).live
    ensures var st' := Pass4Fold(st, Walked(entries, failing));
            && LogMatchesIndex(st') && Grows(st, st')
            && (forall e :: e in st.live && IsCanonical(st, e) ==> e in st'.live)
            && Pass4Fold(st', Walked(again, failing')) == st'
  {
    var st' := Pass4Fold(st, Walked(entries, failing));
    WalkKeeps(st, Walked(entries, failing));
    Pass4SettlesExactly(st, entries, failing);
    WalkedMembers(again, failing');
    Pass4Rests(st', Walked(again, failing'));
  }

  /** One garbled entry, listed first because it is the newest, keeps pass 4 from removing a duplicate. */
  lemma GarbledLeavesDuplicate(stream: StreamName, group: GroupName)
    ensures var garbled := Entry(stream, Id(3, 0), Garbled);
            var copy, named := Entry(stream, Id(2, 0), Failure(7)), Entry(stream, Id(1, 0), Failure(7));
            var live := {garbled, copy, named};
            var log := map[7 := LogRow(Msg(stream, group, Id(9, 0)), Some(Id(1, 0)))];
            var st := Store(log, map[7 := Id(1, 0)], map[], live, live);
            && StoreSound(st) && ListsAll(st, [garbled, copy, named])
            && Pass4Fold(st, Walked([garbled, copy, named], {})) == st && copy in st.live && !IsCanonical(st, copy)
  {
    var garbled := Entry(stream, Id(3, 0), Garbled);
    var copy, named := Entry(stream, Id(2, 0), Failure(7)), Entry(stream, Id(1, 0), Failure(7));
    var live := {garbled, copy, named};
    var log := map[7 := LogRow(Msg(stream, group, Id(9, 0)), Some(Id(1, 0)))];
    var st := Store(log, map[7 := Id(1, 0)], map[], live, live);
    assert 7 in st.log && st.log[7].msg.stream == stream;
    assert Walked([garbled, copy, named], {}) == [];
  }

  lemma {:induction false} Pass4FoldAppend(st: Store, entries: seq<Entry>, e: Entry)
    ensures Pass4Fold(st, entries + [e]) == Pass4Step(Pass4Fold(st, entries), e)
    decreases |entries|
  {
    if entries == [] {
      assert entries + [e] == [e];
    } else {
      assert (entries + [e])[1..] == entries[1..] + [e];
      Pass4FoldAppend(Pass4Step(st, entries[0]), entries[1..], e);
    }
  }

  lemma {:induction false} WalkedSnoc(entries: seq<Entry>, failing: set<Entry>, i: nat)
    requires i < |entries| && forall j :: 0 <= j <= i ==> !entries[j].tag.Garbled?
    ensures Walked(entries[..i + 1], failing)
         == Walked(entries[..i], failing) + if entries[i] in failing then [] else [entries[i]]
  {
    assert entries[..i + 1][1..] == entries[1..][..i];
    if i == 0 {
      assert entries[..1] == [entries[0]] && Walked([], failing) == [];
    } else {
      assert entries[..i][1..] == entries[1..][..i - 1];
      WalkedSnoc(entries[1..], failing, i - 1);
      var head := if entries[0] in failing then [] else [entries[0]];
      var last := if entries[i] in failing then [] else [entries[i]];
      assert Walked(entries[..i + 1], failing) == head + (Walked(entries[1..][..i - 1], failing) + last);
    }
  }

  lemma {:induction false} WalkedStops(entries: seq<Entry>, failing: set<Entry>, i: nat)
    requires i <= |entries| && (forall j :: 0 <= j < i ==> !entries[j].tag.Garbled?)
    requires i < |entries| ==> entries[i].tag.Garbled?
    ensures Walked(entries, failing) == Walked(entries[..i], failing)
  {
    if i > 0 {
      WalkedStops(entries[1..], failing, i - 1);
      assert entries[..i][1..] == entries[1..][..i - 1];
    }
  }

  // ---------------------------------------------------------------- pass 1

  /** Another owner's intent: left alone while its heartbeat is live.  Once it is stale it goes, and if the scan finds
      the entry, index and log name that entry, unless they named one before; without an entry they stay. */
  lemma Pass1Exactly(h: Hypotheses, s: State, ev: Event)
    requires LogMatchesIndex(s.store) && Enabled(h, s, ev) && ev.Pass1?
    requires ev.fid in s.store.intents && s.store.intents[ev.fid].owner != Janitor(ev.janitor)
    ensures var st, st' := s.store, Apply(h, s, ev).store;
            if !ev.stale then st' == st
            else
              && st'.intents == st.intents - {ev.fid} && st'.live == st.live && st'.ever == st.ever
              && if ev.found.None? then st'.log == st.log && st'.index == st.index
                 else
                   var rid := if ev.fid in st.index then st.index[ev.fid] else ev.found.value;
                   && st'.index == st.index[ev.fid := rid]
                   && st'.log == st.log[ev.fid := LogRow(st.log[ev.fid].msg, Some(rid))]
  {
    var st, st' := s.store, Apply(h, s, ev).store;
    if ev.stale && ev.found.Some? {
      var rid := if ev.fid in st.index then st.index[ev.fid] else ev.found.value;
      assert st'.index == st.index[ev.fid := rid];
      assert st'.log[ev.fid] == LogRow(st.log[ev.fid].msg, Some(rid));
    }
  }

  // ---------------------------------------------------------------- pass 2

  /** A committed re-drive: the log is routed, the index names the same id, no intent is left, and an
      entry was added exactly when neither an index row nor any entry of that failure existed. */
  lemma RedriveSettles(st: Store, fid: nat, orphan: Option<Id>, id: Id)
    requires LogMatchesIndex(st) && fid in st.log
    requires ScanAnswer(st, st.log[fid].msg.stream, ZERO, fid, orphan)
    ensures var st' := RedriveStore(st, fid, orphan, id);
            && fid in st'.index && fid in st'.log && st'.log[fid].rid == Some(st'.index[fid]) && fid !in st'.intents
            && LogMatchesIndex(st')
            && st'.live == st.live + if fid !in st.index
            && (forall e :: e in st.live && e.stream == st.log[fid].msg.stream ==> e.tag != Failure(fid))
                                     then {Entry(st.log[fid].msg.stream, id, Failure(fid))} else {}
  {
    if orphan.Some? {
      assert Entry(st.log[fid].msg.stream, orphan.value, Failure(fid)) in st.live;
    }
  }

  lemma OwnedPass2IsRedrive(h: Hypotheses, s: State, ev: Event)
    requires h.freshReads && Enabled(h, s, ev) && ev.Pass2? && ev.fate.Commits?
    requires AcquireOutcome(s.store, ev.fid, Janitor(ev.janitor), ev.stale, ev.found) == Own
    ensures var st1 := AcquireStore(s.store, ev.fid, Janitor(ev.janitor), ev.lower, ev.stale, ev.found);
            && st1.index == s.store.index && st1.log == s.store.log && st1.live == s.store.live
            && Apply(h, s, ev).store == RedriveStore(st1, ev.fid, ev.orphan, ev.id)
  {
    OwnKeepsRecords(s.store, ev.fid, Janitor(ev.janitor), ev.lower, ev.stale, ev.found);
  }

  lemma OwnedPass2Settles(h: Hypotheses, s: State, ev: Event)
    requires h.freshReads && StoreSound(s.store) && Enabled(h, s, ev) && ev.Pass2? && ev.fate.Commits?
    requires AcquireOutcome(s.store, ev.fid, Janitor(ev.janitor), ev.stale, ev.found) == Own
    ensures var st, st' := s.store, Apply(h, s, ev).store;
            && ev.fid in st'.index && ev.fid in st'.log && st'.log[ev.fid].rid == Some(st'.index[ev.fid])
            && ev.fid !in st'.intents
            && (st'.live != st.live ==> ev.fid !in st.index && forall e :: e in st.live ==> e.tag != Failure(ev.fid))
  {
    OwnedPass2IsRedrive(h, s, ev);
    AcquireKeepsSound(s.store, ev.fid, Janitor(ev.janitor), ev.lower, ev.stale, ev.found);
    RedriveAddsIfNone(AcquireStore(s.store, ev.fid, Janitor(ev.janitor), ev.lower, ev.stale, ev.found), ev.fid,
        ev.orphan, ev.id);
  }

  lemma RedriveAddsIfNone(st: Store, fid: nat, orphan: Option<Id>, id: Id)
    requires StoreSound(st) && fid in st.log && ScanAnswer(st, st.log[fid].msg.stream, ZERO, fid, orphan)
    ensures var st' := RedriveStore(st, fid, orphan, id);
            && fid in st'.index && fid in st'.log && st'.log[fid].rid == Some(st'.index[fid]) && fid !in st'.intents
            && (st'.live != st.live ==> fid !in st.index && forall e :: e in st.live ==> e.tag != Failure(fid))
  {
    RedriveSettles(st, fid, orphan, id);
    assert forall e :: e in st.live && e.tag == Failure(fid) ==> e in st.ever;
  }

  /** In any run, with any interleaving before it: what a pass-2 transaction that owned the intent and
      committed leaves behind. */
  lemma CommittedPass2Settles(h: Hypotheses, run: seq<Event>, ev: Event)
    requires h.freshReads && ValidRun(h, run) && Enabled(h, Exec(h, run), ev) && ev.Pass2? && ev.fate.Commits?
    requires AcquireOutcome(Exec(h, run).store, ev.fid, Janitor(ev.janitor), ev.stale, ev.found) == Own
    ensures var st, st' := Exec(h, run).store, Apply(h, Exec(h, run), ev).store;
            && ev.fid in st'.index && ev.fid in st'.log && st'.log[ev.fid].rid == Some(st'.index[ev.fid])
            && ev.fid !in st'.intents
            && (st'.live != st.live ==> ev.fid !in st.index && forall e :: e in st.live ==> e.tag != Failure(ev.fid))
  {
    RunSound(h, run);
    OwnedPass2Settles(h, Exec(h, run), ev);
  }

  // ---------------------------------------------------------------- the janitor

  class DeadletterJanitor {
    var store: Store

    constructor (st: Store)
      ensures store == st
    {
      store := st;
    }

    /** `_reconcile_pass4_entry`; when its XDEL or its transaction fails it rolls back and leaves the entry. */
    method ReconcileEntry(e: Entry, fails: bool)
      requires e.tag.Failure?
      modifies this
      ensures store == if fails then old(store) else Pass4Store(old(store), e)
    {
      var fid, before := e.tag.fid, store;
      if fid in store.index {
        if store.index[fid] == e.id {
          return;
        }
        store := DropEntry(store, e);
      } else if fid !in store.log {
        store := DropEntry(store, e);
      } else {
        store := IndexIfAbsent(store, fid, e.id);
        store := MarkRouted(store, fid, e.id);
      }
      if fails {
        store := before;
      }
    }

    /** The walk of pass 4 over what XREVRANGE returned; an unparsable failure id ends the pass. */
    method WalkRecent(entries: seq<Entry>, failing: set<Entry>) returns (completed: bool)
      requires LogMatchesIndex(store)
      modifies this
      ensures store == Pass4Fold(old(store), Walked(entries, failing))
      ensures completed <==> forall e :: e in entries ==> !e.tag.Garbled?
      ensures LogMatchesIndex(store) && Grows(old(store), store)
      ensures forall o :: o in old(store).live && IsCanonical(old(store), o) ==> o in store.live
      ensures StoreSound(old(store)) && ListsAll(old(store), entries) ==>
                (Settled(store) <==> ReachesUnsettled(old(store), entries, failing))
    {
      ghost var start := store;
      var i := 0;
      completed := true;
      while i < |entries| && completed
        invariant i <= |entries| && store == Pass4Fold(start, Walked(entries[..i], failing))
        invariant forall j :: 0 <= j < i ==> !entries[j].tag.Garbled?
        invariant !completed ==> i < |entries| && entries[i].tag.Garbled?
        decreases |entries| - i, completed
      {
        if entries[i].tag.Garbled? {
          completed := false;
        } else {
          if entries[i].tag.Failure? {
            ReconcileEntry(entries[i], entries[i] in failing);
          }
          WalkedSnoc(entries, failing, i);
          if entries[i] !in failing {
            Pass4FoldAppend(start, Walked(entries[..i], failing), entries[i]);
          } else {
            assert Walked(entries[..i], failing) + [] == Walked(entries[..i], failing);
          }
          i := i + 1;
        }
      }
      WalkedStops(entries, failing, i);
      WalkKeeps(start, Walked(entries, failing));
      if StoreSound(start) && ListsAll(start, entries) {
        Pass4SettlesExactly(start, entries, failing);
      }
    }

    /** `_finish_routing_after_adoption`; `orphan` is the answer of the whole-stream scan. */
    method FinishRouting(fid: nat, orphan: Option<Id>, id: Id)
      requires fid in store.log && LogMatchesIndex(store)
      requires ScanAnswer(store, store.log[fid].msg.stream, ZERO, fid, orphan)
      modifies this
      ensures store == RedriveStore(old(store), fid, orphan, id)
      ensures fid in store.index && fid in store.log && store.log[fid].rid == Some(store.index[fid])
      ensures fid !in store.intents
    {
      RedriveSettles(store, fid, orphan, id);
      var canonical: Option<Id> := None;
      if fid in store.index {
        canonical := Some(store.index[fid]);
      } else if orphan.Some? {
        store := IndexIfAbsent(store, fid, orphan.value);
        canonical := orphan;
      }
      if canonical.None? {
        store := AddEntry(store, Entry(store.log[fid].msg.stream, id, Failure(fid)));
        canonical := Some(id);
        store := IndexIfAbsent(store, fid, id);
      }
      store := MarkRouted(store, fid, canonical.value);
      store := DropIntent(store, fid);
    }
  }

  lemma WalkKeeps(st: Store, entries: seq<Entry>)
    requires LogMatchesIndex(st)
    ensures LogMatchesIndex(Pass4Fold(st, entries)) && Grows(st, Pass4Fold(st, entries))
    ensures forall o :: o in st.live && IsCanonical(st, o) ==> o in Pass4Fold(st, entries).live
  {
    Pass4FoldFacts(st, entries);
    forall o | o in st.live && IsCanonical(st, o) ensures o in Pass4Fold(st, entries).live {
      Pass4KeepsCanonical(st, entries, o);
    }
  }
}
