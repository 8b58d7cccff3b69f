/** Under H1, H2 and H5 the entry that a failure's index row names is never XDELed, in any run of
    routing calls, crashes and janitor passes; with H4 it is always there. */
module CanonicalEntry {
  import opened Options
  import opened RedisIds
  import opened Deadletter
  import opened LogRows
  import opened Agreement
  import opened FailStop

  /** Every index row names a live entry. */
  ghost predicate CanonicalLive(st: Store) {
    forall f :: f in st.index ==> f in st.log && Entry(st.log[f].msg.stream, st.index[f], Failure(f)) in st.live
  }

  /** A call that may still delete its own entry is not holding the canonical one. */
  ghost predicate OwnEntriesSpare(s: State) {
    forall c :: Active(s, c) && Unsettled(s.calls[c].pc) ==>
      s.calls[c].pc.fid in s.store.index ==> s.store.index[s.calls[c].pc.fid] != s.calls[c].pc.rid
  }

  /** Two calls never wrote the same entry. */
  ghost predicate OwnEntriesDistinct(s: State) {
    forall c, d :: (c in s.calls && d in s.calls && Unsettled(s.calls[c].pc) && Unsettled(s.calls[d].pc)
                    && s.calls[c].msg.stream == s.calls[d].msg.stream
                    && s.calls[c].pc.rid == s.calls[d].pc.rid) ==> c == d
  }

  /** Until its failure is indexed, a call's new entry stays in the stream. */
  ghost predicate OwnEntriesLive(s: State) {
    forall c :: Active(s, c) && s.calls[c].pc.Added? && s.calls[c].pc.fid !in s.store.index ==>
      Entry(s.calls[c].msg.stream, s.calls[c].pc.rid, Failure(s.calls[c].pc.fid)) in s.store.live
  }

  ghost predicate Spared(s: State) {
    OwnEntriesSpare(s) && OwnEntriesDistinct(s)
  }

  ghost predicate Guarded(s: State) {
    Spared(s) && CanonicalLive(s.store) && OwnEntriesLive(s)
  }

  /** No index row names the entry, and no call has just added it for an un-indexed failure. */
  ghost predicate Spare(s: State, e: Entry) {
    && e.tag.Failure?
    && (e.tag.fid in s.store.index ==> s.store.index[e.tag.fid] != e.id)
    && (forall c :: Active(s, c) && s.calls[c].pc.Added? && s.calls[c].pc.fid !in s.store.index ==>
          e != Entry(s.calls[c].msg.stream, s.calls[c].pc.rid, Failure(s.calls[c].pc.fid)))
  }

  /** Every XDEL removes a spare entry. */
  lemma DeletesOnlySpareEntries(h: Hypotheses, s: State, ev: Event, e: Entry)
    requires Sound(s) && Spared(s) && Enabled(h, s, ev)
    requires e in s.store.live && e !in Apply(h, s, ev).store.live
    ensures Spare(s, e)
  {
    if ev.Xdel? {
      UndoDeletesSpare(h, s, ev, e);
    } else if ev.Finish? {
      FinishDeletesNothing(h, s, ev);
    } else if ev.Pass4? {
      Pass4DeletesSpare(h, s, ev, e);
    } else {
      OnlyTheseDelete(h, s, ev);
    }
  }

  lemma UndoDeletesSpare(h: Hypotheses, s: State, ev: Event, e: Entry)
    requires Spared(s) && Enabled(h, s, ev) && ev.Xdel?
    requires e in s.store.live && e !in Apply(h, s, ev).store.live
    ensures Spare(s, e)
  {
    assert e == Entry(s.calls[ev.call].msg.stream, s.calls[ev.call].pc.rid, Failure(s.calls[ev.call].pc.fid));
  }

  lemma FinishDeletesNothing(h: Hypotheses, s: State, ev: Event)
    requires Sound(s) && Enabled(h, s, ev) && ev.Finish?
    ensures Apply(h, s, ev).store.live == s.store.live
  {
    FinishNeverRollsBack(s, ev.call);
  }

  lemma Pass4DeletesSpare(h: Hypotheses, s: State, ev: Event, e: Entry)
    requires StoreSound(s.store) && Enabled(h, s, ev) && ev.Pass4?
    requires e in s.store.live && e !in Apply(h, s, ev).store.live
    ensures Spare(s, e)
  {
    Pass4Deletes(s.store, ev.entry, e);
    assert e in s.store.ever;
  }

  lemma Pass4Deletes(st: Store, entry: Entry, e: Entry)
    requires entry.tag.Failure? && e in st.live
    ensures e in Pass4Write(st, entry).live
    ensures e !in Pass4Store(st, entry).live ==>
              e == entry && (e.tag.fid !in st.log || (e.tag.fid in st.index && st.index[e.tag.fid] != e.id))
  {
  }

  lemma AcquireKeepsEntries(st: Store, f: nat, owner: Owner, lower: Id, stale: bool, found: Option<Id>)
    ensures AcquireStore(st, f, owner, lower, stale, found).live == st.live
  {
  }

  lemma SettleKeepsEntries(st: Store, f: nat, canonical: Option<Id>, id: Id)
    requires f in st.log
    ensures st.live <= SettleStore(st, f, canonical, id).live
  {
  }

  lemma Pass2KeepsEntries(h: Hypotheses, s: State, ev: Event)
    requires Enabled(h, s, ev) && ev.Pass2?
    ensures s.store.live <= Apply(h, s, ev).store.live
  {
    var st, o := s.store, Janitor(ev.janitor);
    AcquireKeepsEntries(st, ev.fid, o, ev.lower, ev.stale, ev.found);
    if ev.fate.Commits? && AcquireOutcome(st, ev.fid, o, ev.stale, ev.found) == Own {
      var st1 := AcquireStore(st, ev.fid, o, ev.lower, ev.stale, ev.found);
      SettleKeepsEntries(st1, ev.fid, if ev.late then ev.orphan else Canonical(st1, ev.fid, ev.orphan), ev.id);
    }
  }

  lemma OnlyTheseDelete(h: Hypotheses, s: State, ev: Event)
    requires Enabled(h, s, ev) && !ev.Xdel? && !ev.Finish? && !ev.Pass4?
    ensures s.store.live <= Apply(h, s, ev).store.live
  {
    if ev.Acquire? {
      var call := s.calls[ev.call];
      AcquireKeepsEntries(s.store, call.pc.fid, call.owner, call.pc.lower, ev.stale, ev.found);
    } else if ev.Pass1? {
      AcquireKeepsEntries(s.store, ev.fid, Janitor(ev.janitor), ZERO, ev.stale, ev.found);
    } else if ev.Pass2? {
      Pass2KeepsEntries(h, s, ev);
    } else {
      OthersKeepEntries(h, s, ev);
    }
  }

  lemma OthersKeepEntries(h: Hypotheses, s: State, ev: Event)
    requires Enabled(h, s, ev) && !ev.Xdel? && !ev.Finish? && !ev.Pass4? && !ev.Acquire? && !ev.Pass1? && !ev.Pass2?
    ensures s.store.live <= Apply(h, s, ev).store.live
  {
  }

  lemma OnlyTheseIndex(h: Hypotheses, s: State, ev: Event)
    requires Enabled(h, s, ev) && !ev.Acquire? && !ev.CommitIndex? && !ev.Pass1? && !ev.Pass2? && !ev.Pass4?
    ensures forall f :: f in Apply(h, s, ev).store.index ==> f in s.store.index
  {
  }

  lemma AcquireIndexes(st: Store, f: nat, owner: Owner, lower: Id, stale: bool, found: Option<Id>, g: nat)
    requires g !in st.index && g in AcquireStore(st, f, owner, lower, stale, found).index
    ensures g == f && Adopts(st, f, owner, stale)
    ensures found == Some(AcquireStore(st, f, owner, lower, stale, found).index[g])
    ensures AcquireOutcome(st, f, owner, stale, found) != Own
  {
  }

  lemma SettleIndexes(st: Store, f: nat, orphan: Option<Id>, id: Id, g: nat)
    requires f in st.log && g !in st.index && g in SettleStore(st, f, orphan, id).index
    ensures g == f
    ensures var rid := SettleStore(st, f, orphan, id).index[g];
            orphan == Some(rid)
              || (rid == id && Entry(st.log[f].msg.stream, id, Failure(f)) in SettleStore(st, f, orphan, id).live)
    ensures st.live <= SettleStore(st, f, orphan, id).live
  {
  }

  /** Where a new index row comes from when pass 2 commits. */
  lemma Pass2Indexes(h: Hypotheses, s: State, ev: Event, g: nat)
    requires ev.Pass2? && Enabled(h, s, ev)
    requires g !in s.store.index && g in Apply(h, s, ev).store.index
    ensures g == ev.fid && ev.fate.Commits?
    ensures Entry(s.store.log[g].msg.stream, Apply(h, s, ev).store.index[g], Failure(g)) in Apply(h, s, ev).store.live
    ensures Adopts(s.store, g, Janitor(ev.janitor), ev.stale)
            || AcquireOutcome(s.store, g, Janitor(ev.janitor), ev.stale, ev.found) == Own
  {
    var st, o := s.store, Janitor(ev.janitor);
    var st1 := AcquireStore(st, ev.fid, o, ev.lower, ev.stale, ev.found);
    AcquireKeepsEntries(st, ev.fid, o, ev.lower, ev.stale, ev.found);
    if AcquireOutcome(st, ev.fid, o, ev.stale, ev.found) == Own {
      OwnKeepsRecords(st, ev.fid, o, ev.lower, ev.stale, ev.found);
      if ev.fate.Commits? {
        assert Apply(h, s, ev).store
            == SettleStore(st1, ev.fid, if ev.late then ev.orphan else Canonical(st1, ev.fid, ev.orphan), ev.id);
        SettleIndexes(st1, ev.fid, if ev.late then ev.orphan else Canonical(st1, ev.fid, ev.orphan), ev.id, g);
      }
    } else {
      AcquireIndexes(st, ev.fid, o, ev.lower, ev.stale, ev.found, g);
    }
  }

  /** A new index row names a live entry. */
  lemma NewRowNamesLive(h: Hypotheses, s: State, ev: Event, f: nat)
    requires h.freshWalk && h.freshReads && Sound(s) && Guarded(s) && Enabled(h, s, ev)
    requires f !in s.store.index && f in Apply(h, s, ev).store.index
    ensures f in s.store.log
    ensures Entry(s.store.log[f].msg.stream, Apply(h, s, ev).store.index[f], Failure(f)) in Apply(h, s, ev).store.live
  {
    if ev.Acquire? || ev.CommitIndex? {
      CallRowNamesLive(h, s, ev, f);
    } else if ev.Pass1? {
      AcquireIndexes(s.store, ev.fid, Janitor(ev.janitor), ZERO, ev.stale, ev.found, f);
    } else if ev.Pass2? {
      Pass2Indexes(h, s, ev, f);
    } else if ev.Pass4? {
      assert ev.entry in s.store.ever;
    } else {
      OnlyTheseIndex(h, s, ev);
    }
  }

  lemma CallRowNamesLive(h: Hypotheses, s: State, ev: Event, f: nat)
    requires Sound(s) && Guarded(s) && Enabled(h, s, ev) && (ev.Acquire? || ev.CommitIndex?)
    requires f !in s.store.index && f in Apply(h, s, ev).store.index
    ensures f in s.store.log
    ensures Entry(s.store.log[f].msg.stream, Apply(h, s, ev).store.index[f], Failure(f)) in Apply(h, s, ev).store.live
  {
    var call := s.calls[ev.call];
    assert CallSound(s.store, call);
    if ev.Acquire? {
      AcquireIndexes(s.store, call.pc.fid, call.owner, call.pc.lower, ev.stale, ev.found, f);
    }
  }

  /** Call `c` has an entry of an un-indexed failure that it may still delete, and stays where it is. */
  ghost predicate StillUnsettled(h: Hypotheses, s: State, ev: Event, c: nat)
    requires Enabled(h, s, ev)
  {
    && Active(s, c) && Unsettled(s.calls[c].pc) && s.calls[c].pc.fid !in s.store.index
    && Active(Apply(h, s, ev), c) && Apply(h, s, ev).calls[c].pc == s.calls[c].pc
    && s.calls[c].pc.fid in Apply(h, s, ev).store.index
  }

  lemma PassesSpareOwnEntries(h: Hypotheses, s: State, ev: Event, c: nat)
    requires h.failStop && h.quietPass4 && h.freshReads && Sound(s) && Fenced(s) && Enabled(h, s, ev)
    requires StillUnsettled(h, s, ev, c)
    requires ev.Pass1? || ev.Pass2? || ev.Pass4?
    ensures Apply(h, s, ev).store.index[s.calls[c].pc.fid] != s.calls[c].pc.rid
  {
    var st, fid := s.store, s.calls[c].pc.fid;
    assert IntentBacks(st, s.calls[c], fid);
    assert c in Holders(s, fid, st.intents[fid].owner);
    assert CallSound(st, s.calls[c]);
    if ev.Pass1? {
      AcquireIndexes(st, ev.fid, Janitor(ev.janitor), ZERO, ev.stale, ev.found, fid);
    } else if ev.Pass2? {
      Pass2Indexes(h, s, ev, fid);
    } else {
      assert ev.entry in st.ever;
    }
  }

  /** A new index row never names the entry of a call that may still delete it. */
  lemma NewRowSparesOwnEntries(h: Hypotheses, s: State, ev: Event, c: nat)
    requires h.failStop && h.quietPass4 && h.freshReads && Sound(s) && Fenced(s) && Spared(s) && Enabled(h, s, ev)
    requires StillUnsettled(h, s, ev, c)
    ensures Apply(h, s, ev).store.index[s.calls[c].pc.fid] != s.calls[c].pc.rid
  {
    var st, fid := s.store, s.calls[c].pc.fid;
    if ev.Pass1? || ev.Pass2? || ev.Pass4? {
      PassesSpareOwnEntries(h, s, ev, c);
    } else if ev.Acquire? {
      assert IntentBacks(st, s.calls[c], fid);
      assert c in Holders(s, fid, st.intents[fid].owner);
      var call := s.calls[ev.call];
      AcquireIndexes(st, call.pc.fid, call.owner, call.pc.lower, ev.stale, ev.found, fid);
    } else if ev.CommitIndex? {
      assert CallSound(st, s.calls[c]) && CallSound(st, s.calls[ev.call]);
    } else {
      OnlyTheseIndex(h, s, ev);
    }
  }

  lemma StepKeepsCanonicalLive(h: Hypotheses, s: State, ev: Event)
    requires h.freshWalk && h.freshReads && Sound(s) && Guarded(s) && Enabled(h, s, ev)
    ensures CanonicalLive(Apply(h, s, ev).store)
  {
    var s' := Apply(h, s, ev);
    StepSound(h, s, ev);
    forall f | f in s'.store.index
      ensures f in s'.store.log && Entry(s'.store.log[f].msg.stream, s'.store.index[f], Failure(f)) in s'.store.live
    {
      if f in s.store.index {
        var e := Entry(s.store.log[f].msg.stream, s.store.index[f], Failure(f));
        if e !in s'.store.live {
          DeletesOnlySpareEntries(h, s, ev, e);
        }
      } else {
        NewRowNamesLive(h, s, ev, f);
      }
    }
  }

  /** A call that is unsettled after an event either was so before, with the same entry, or has just
      added a fresh one. */
  lemma UnsettledBefore(h: Hypotheses, s: State, ev: Event, c: nat)
    requires Enabled(h, s, ev) && c in Apply(h, s, ev).calls && Unsettled(Apply(h, s, ev).calls[c].pc)
    ensures c in s.calls && Apply(h, s, ev).calls[c].msg == s.calls[c].msg
    ensures var pc, pc' := s.calls[c].pc, Apply(h, s, ev).calls[c].pc;
            || (Unsettled(pc) && pc.fid == pc'.fid && pc.rid == pc'.rid && (pc'.Added? ==> pc.Added?))
            || (ev == Xadd(c, pc'.rid) && pc' == Added(pc.fid, ev.id))
    ensures Active(Apply(h, s, ev), c) ==> Active(s, c)
  {
  }

  /** An unsettled call's entry is not the named one after the event. */
  lemma StaysSpare(h: Hypotheses, s: State, ev: Event, c: nat)
    requires h.failStop && h.quietPass4 && h.freshReads && Sound(s) && Fenced(s) && Spared(s) && Enabled(h, s, ev)
    requires Active(s, c) && Unsettled(s.calls[c].pc) && Active(Apply(h, s, ev), c)
    requires s.calls[c].pc.fid in Apply(h, s, ev).store.index && Grows(s.store, Apply(h, s, ev).store)
    requires var pc' := Apply(h, s, ev).calls[c].pc; Unsettled(pc') && pc'.fid == s.calls[c].pc.fid
    ensures Apply(h, s, ev).store.index[s.calls[c].pc.fid] != s.calls[c].pc.rid
  {
    var fid := s.calls[c].pc.fid;
    if fid !in s.store.index {
      if Apply(h, s, ev).calls[c].pc == s.calls[c].pc {
        NewRowSparesOwnEntries(h, s, ev, c);
      } else {
        ConflictIsOld(h, s, ev, c);
      }
    }
  }

  /** A call goes from added to undoing without a new index row. */
  lemma ConflictIsOld(h: Hypotheses, s: State, ev: Event, c: nat)
    requires Enabled(h, s, ev) && c in s.calls && Unsettled(s.calls[c].pc) && Unsettled(Apply(h, s, ev).calls[c].pc)
    requires Apply(h, s, ev).calls[c].pc != s.calls[c].pc
    ensures Apply(h, s, ev).store == s.store
  {
  }

  lemma StepKeepsSpare(h: Hypotheses, s: State, ev: Event)
    requires h.failStop && h.quietPass4 && h.freshReads && Sound(s) && Fenced(s) && Spared(s) && Enabled(h, s, ev)
    ensures OwnEntriesSpare(Apply(h, s, ev))
  {
    var s' := Apply(h, s, ev);
    StepSound(h, s, ev);
    forall c | Active(s', c) && Unsettled(s'.calls[c].pc) && s'.calls[c].pc.fid in s'.store.index
      ensures s'.store.index[s'.calls[c].pc.fid] != s'.calls[c].pc.rid
    {
      UnsettledBefore(h, s, ev, c);
      if Unsettled(s.calls[c].pc) {
        StaysSpare(h, s, ev, c);
      } else {
        FreshEntryIsSpare(h, s, ev, c);
      }
    }
  }

  /** An entry just added is newer than anything an index row can name. */
  lemma FreshEntryIsSpare(h: Hypotheses, s: State, ev: Event, c: nat)
    requires Sound(s) && Enabled(h, s, ev) && ev.Xadd? && ev.call == c
    ensures var s' := Apply(h, s, ev);
            s'.calls[c].pc.fid in s'.store.index ==> s'.store.index[s'.calls[c].pc.fid] != s'.calls[c].pc.rid
  {
    assert CallSound(s.store, s.calls[c]);
  }

  lemma StepKeepsDistinct(h: Hypotheses, s: State, ev: Event)
    requires Sound(s) && OwnEntriesDistinct(s) && Enabled(h, s, ev)
    ensures OwnEntriesDistinct(Apply(h, s, ev))
  {
    var s' := Apply(h, s, ev);
    forall c, d | c in s'.calls && d in s'.calls && Unsettled(s'.calls[c].pc) && Unsettled(s'.calls[d].pc)
                  && s'.calls[c].msg.stream == s'.calls[d].msg.stream && s'.calls[c].pc.rid == s'.calls[d].pc.rid
      ensures c == d
    {
      UnsettledBefore(h, s, ev, c);
      UnsettledBefore(h, s, ev, d);
      assert CallSound(s.store, s.calls[c]);
      assert CallSound(s.store, s.calls[d]);
    }
  }

  lemma StepKeepsOwnLive(h: Hypotheses, s: State, ev: Event)
    requires h.freshReads && Sound(s) && Guarded(s) && Enabled(h, s, ev)
    ensures OwnEntriesLive(Apply(h, s, ev))
  {
    var s' := Apply(h, s, ev);
    StepSound(h, s, ev);
    forall c | Active(s', c) && s'.calls[c].pc.Added? && s'.calls[c].pc.fid !in s'.store.index
      ensures Entry(s'.calls[c].msg.stream, s'.calls[c].pc.rid, Failure(s'.calls[c].pc.fid)) in s'.store.live
    {
      UnsettledBefore(h, s, ev, c);
      var e := Entry(s'.calls[c].msg.stream, s'.calls[c].pc.rid, Failure(s'.calls[c].pc.fid));
      if s.calls[c].pc.Added? && e !in s'.store.live {
        assert e in s.store.live;
        DeletesOnlySpareEntries(h, s, ev, e);
      }
    }
  }

  /** H1 and H2 keep every named entry out of reach of every call that could delete it. */
  lemma {:induction false} RunSpared(h: Hypotheses, run: seq<Event>)
    requires h.failStop && h.quietPass4 && h.freshReads && ValidRun(h, run)
    ensures Sound(Exec(h, run)) && Fenced(Exec(h, run)) && Spared(Exec(h, run))
  {
    RunFenced(h, run);
    if run != [] {
      var before, ev := run[..|run| - 1], run[|run| - 1];
      RunSpared(h, before);
      StepKeepsSpare(h, Exec(h, before), ev);
      StepKeepsDistinct(h, Exec(h, before), ev);
    }
  }

  /** With H4 as well, every index row names a live entry. */
  lemma {:induction false} RunGuarded(h: Hypotheses, run: seq<Event>)
    requires h.failStop && h.quietPass4 && h.freshWalk && h.freshReads && ValidRun(h, run)
    ensures Sound(Exec(h, run)) && Fenced(Exec(h, run)) && Guarded(Exec(h, run))
  {
    RunSpared(h, run);
    if run != [] {
      var before, ev := run[..|run| - 1], run[|run| - 1];
      RunGuarded(h, before);
      StepKeepsCanonicalLive(h, Exec(h, before), ev);
      StepKeepsOwnLive(h, Exec(h, before), ev);
    }
  }
}
