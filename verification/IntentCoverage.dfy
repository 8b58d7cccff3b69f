/** The write-ahead intents cover every entry that is not indexed yet: a stale adoption that finds
    nothing above the recorded bound may safely call the XADD lost. */
module IntentCoverage {
  import opened Options
  import opened RedisIds
  import opened Deadletter
  import opened LogRows
  import opened Agreement
  import opened FailStop
  import opened CanonicalEntry
  import opened Witnesses

  /** An entry of an un-indexed failure has a live intent whose bound is at most the entry's id. */
  ghost predicate Covered(st: Store) {
    forall e :: e in st.live && e.tag.Failure? && e.tag.fid !in st.index ==>
      e.tag.fid in st.intents && AtMost(st.intents[e.tag.fid].lower, e.id)
  }

  /** A bound that was read off the stream: 0-0 or the id of some entry. */
  ghost predicate KnownBound(st: Store, stream: StreamName, lower: Id) {
    lower == ZERO || exists e :: e in st.ever && e.stream == stream && e.id == lower
  }

  ghost predicate BoundsKnown(s: State) {
    && (forall f :: f in s.store.intents ==>
        f in s.store.log && KnownBound(s.store, s.store.log[f].msg.stream, s.store.intents[f].lower))
    && (forall c :: c in s.calls && s.calls[c].pc.Bounded? ==>
        KnownBound(s.store, s.calls[c].msg.stream, s.calls[c].pc.lower))
  }

  lemma KnownBoundGrows(a: Store, b: Store, stream: StreamName, lower: Id)
    requires a.ever <= b.ever && KnownBound(a, stream, lower)
    ensures KnownBound(b, stream, lower)
  {
  }

  lemma CapturedIsKnown(st: Store, stream: StreamName, lower: Id)
    requires EntriesWellPlaced(st) && CapturedBound(st, stream, lower)
    ensures KnownBound(st, stream, lower)
  {
  }

  /** Where an intent that is there after an event comes from. */
  lemma IntentOrigin(h: Hypotheses, s: State, ev: Event, f: nat)
    requires ConsumersOwn(s) && Enabled(h, s, ev) && f in Apply(h, s, ev).store.intents
    ensures var it := Apply(h, s, ev).store.intents[f];
            || (f in s.store.intents && s.store.intents[f] == it)
            || (ev.Acquire? && s.calls[ev.call].pc == Bounded(f, it.lower))
  {
    if ev.Acquire? {
      var call := s.calls[ev.call];
      AcquireFate(s.store, call.pc.fid, call.owner, call.pc.lower, ev.stale, ev.found);
    } else if ev.Pass1? {
      Pass1Fate(h, s, ev);
    } else if ev.Pass2? {
      Pass2Fate(h, s, ev);
    } else if !ev.CommitIndex? {
      OtherEventsKeepIntents(h, s, ev);
    }
  }

  lemma BoundedOrigin(h: Hypotheses, s: State, ev: Event, c: nat)
    requires Enabled(h, s, ev) && c in Apply(h, s, ev).calls && Apply(h, s, ev).calls[c].pc.Bounded?
    ensures c in s.calls && s.calls[c].msg == Apply(h, s, ev).calls[c].msg
    ensures s.calls[c] == Apply(h, s, ev).calls[c] || ev == Capture(c, Apply(h, s, ev).calls[c].pc.lower)
  {
  }

  lemma StepKeepsBounds(h: Hypotheses, s: State, ev: Event)
    requires h.freshReads && Sound(s) && ConsumersOwn(s) && BoundsKnown(s) && Enabled(h, s, ev)
    ensures BoundsKnown(Apply(h, s, ev))
  {
    var st, s' := s.store, Apply(h, s, ev);
    StepSound(h, s, ev);
    forall f | f in s'.store.intents
      ensures f in s'.store.log && KnownBound(s'.store, s'.store.log[f].msg.stream, s'.store.intents[f].lower)
    {
      IntentOrigin(h, s, ev, f);
      if ev.Acquire? {
        assert CallSound(st, s.calls[ev.call]);
      }
      KnownBoundGrows(st, s'.store, st.log[f].msg.stream, s'.store.intents[f].lower);
    }
    forall c | c in s'.calls && s'.calls[c].pc.Bounded?
      ensures KnownBound(s'.store, s'.calls[c].msg.stream, s'.calls[c].pc.lower)
    {
      BoundedOrigin(h, s, ev, c);
      if s.calls[c] != s'.calls[c] {
        CapturedIsKnown(st, s.calls[c].msg.stream, s'.calls[c].pc.lower);
      }
      KnownBoundGrows(st, s'.store, s.calls[c].msg.stream, s'.calls[c].pc.lower);
    }
  }

  lemma OnlyTheseAdd(h: Hypotheses, s: State, ev: Event)
    requires Enabled(h, s, ev) && !ev.Xadd? && !ev.Pass2? && !ev.Foreign?
    ensures Apply(h, s, ev).store.live <= s.store.live
  {
  }

  lemma Pass2AddsIndexed(h: Hypotheses, s: State, ev: Event, e: Entry)
    requires h.wholePass2 && Enabled(h, s, ev) && ev.Pass2? && e in Apply(h, s, ev).store.live && e !in s.store.live
    ensures e.tag == Failure(ev.fid) && ev.fid in Apply(h, s, ev).store.index
  {
    var st, o := s.store, Janitor(ev.janitor);
    AcquireKeepsEntries(st, ev.fid, o, ev.lower, ev.stale, ev.found);
    if AcquireOutcome(st, ev.fid, o, ev.stale, ev.found) == Own {
      var st1 := AcquireStore(st, ev.fid, o, ev.lower, ev.stale, ev.found);
      OwnKeepsRecords(st, ev.fid, o, ev.lower, ev.stale, ev.found);
      var canonical := if ev.late then ev.orphan else Canonical(st1, ev.fid, ev.orphan);
      assert Apply(h, s, ev).store == SettleStore(st1, ev.fid, canonical, ev.id);
      SettleAdds(st1, ev.fid, canonical, ev.id, e);
    }
  }

  lemma SettleAdds(st: Store, f: nat, canonical: Option<Id>, id: Id, e: Entry)
    requires f in st.log && e in SettleStore(st, f, canonical, id).live && e !in st.live
    ensures e.tag == Failure(f) && f in SettleStore(st, f, canonical, id).index
  {
  }

  /** An entry that an event added and left un-indexed was written by a call under its own intent. */
  lemma EntryOrigin(h: Hypotheses, s: State, ev: Event, e: Entry)
    requires h.wholePass2 && Enabled(h, s, ev) && e.tag.Failure?
    requires e in Apply(h, s, ev).store.live && e !in s.store.live && e.tag.fid !in Apply(h, s, ev).store.index
    ensures ev.Xadd? && ev.id == e.id && s.calls[ev.call].pc == Owning(e.tag.fid)
    ensures e.stream == s.calls[ev.call].msg.stream
    ensures Apply(h, s, ev).store == AddEntry(s.store, e)
  {
    if ev.Pass2? {
      Pass2AddsIndexed(h, s, ev, e);
    } else if !ev.Xadd? && !ev.Foreign? {
      OnlyTheseAdd(h, s, ev);
    }
  }

  /** Acquisition by anyone but the owner leaves the intent of an entry that is there alone: its scan
      finds the entry, so it either indexes it or does not adopt. */
  lemma AcquireRespectsCover(st: Store, fid: nat, owner: Owner, lower: Id, stale: bool, found: Option<Id>, e: Entry)
    requires StoreSound(st) && Covered(st) && fid in st.log && AdoptionScan(st, fid, owner, stale, found)
    requires e in st.live && e.tag.Failure? && e.tag.fid !in st.index
    requires e.tag.fid !in AcquireStore(st, fid, owner, lower, stale, found).index
    ensures var st' := AcquireStore(st, fid, owner, lower, stale, found);
            e.tag.fid in st'.intents && st'.intents[e.tag.fid] == st.intents[e.tag.fid]
    ensures e.tag.fid == fid && st.intents[fid].owner != owner ==> AcquireOutcome(st, fid, owner, stale, found) == Abort
  {
    AcquireFate(st, fid, owner, lower, stale, found);
    assert e in st.ever;
  }

  /** So does pass 1: a failure it leaves un-indexed keeps its covering intent. */
  lemma Pass1RespectsCover(h: Hypotheses, s: State, ev: Event, e: Entry)
    requires StoreSound(s.store) && ConsumersOwn(s) && Covered(s.store) && Enabled(h, s, ev) && ev.Pass1?
    requires e in s.store.live && e.tag.Failure? && e.tag.fid !in Apply(h, s, ev).store.index
    requires e.tag.fid !in s.store.index
    ensures var st' := Apply(h, s, ev).store;
            e.tag.fid in st'.intents && st'.intents[e.tag.fid] == s.store.intents[e.tag.fid]
  {
    Pass1Fate(h, s, ev);
    if e.tag.fid == ev.fid {
      AdoptionFinds(s.store, Janitor(ev.janitor), ev.stale, ev.found, e);
    }
  }

  lemma Pass2RespectsCover(h: Hypotheses, s: State, ev: Event, e: Entry)
    requires StoreSound(s.store) && ConsumersOwn(s) && Covered(s.store) && Enabled(h, s, ev) && ev.Pass2?
    requires e in s.store.live && e.tag.Failure? && e.tag.fid !in Apply(h, s, ev).store.index
    requires e.tag.fid !in s.store.index
    ensures var st' := Apply(h, s, ev).store;
            e.tag.fid in st'.intents && st'.intents[e.tag.fid] == s.store.intents[e.tag.fid]
  {
    Pass2Fate(h, s, ev);
    if e.tag.fid == ev.fid {
      AdoptionFinds(s.store, Janitor(ev.janitor), ev.stale, ev.found, e);
    }
  }

  /** An adopter of a covered entry's intent finds an entry, and so indexes the failure. */
  lemma AdoptionFinds(st: Store, owner: Owner, stale: bool, found: Option<Id>, e: Entry)
    requires StoreSound(st) && Covered(st) && e in st.live && e.tag.Failure? && e.tag.fid !in st.index
    requires AdoptionScan(st, e.tag.fid, owner, stale, found)
    ensures Adopts(st, e.tag.fid, owner, stale) ==>
              forall lower :: e.tag.fid in AcquireStore(st, e.tag.fid, owner, lower, stale, found).index
  {
    assert e in st.ever;
  }

  /** A covered entry stays covered: no event drops or raises the bound while the entry is there. */
  lemma StaysCovered(h: Hypotheses, s: State, ev: Event, e: Entry)
    requires h.failStop && Sound(s) && ConsumersOwn(s) && Covered(s.store) && Enabled(h, s, ev)
    requires e in s.store.live && e.tag.Failure? && e.tag.fid !in Apply(h, s, ev).store.index
    requires e.tag.fid !in s.store.index
    ensures var st' := Apply(h, s, ev).store;
            e.tag.fid in st'.intents && AtMost(st'.intents[e.tag.fid].lower, e.id)
  {
    var st := s.store;
    assert e.tag.fid in st.intents && AtMost(st.intents[e.tag.fid].lower, e.id);
    if ev.Acquire? {
      var call := s.calls[ev.call];
      assert CallSound(st, call);
      AcquireRespectsCover(st, call.pc.fid, call.owner, call.pc.lower, ev.stale, ev.found, e);
    } else if ev.Pass1? {
      Pass1RespectsCover(h, s, ev, e);
    } else if ev.Pass2? {
      Pass2RespectsCover(h, s, ev, e);
    } else if !ev.CommitIndex? {
      OtherEventsKeepIntents(h, s, ev);
    }
  }

  lemma StepKeepsCovered(h: Hypotheses, s: State, ev: Event)
    requires h.failStop && h.wholePass2 && h.freshReads && Sound(s) && Fenced(s) && BoundsKnown(s) && Covered(s.store)
    requires Enabled(h, s, ev)
    ensures Covered(Apply(h, s, ev).store)
  {
    var st' := Apply(h, s, ev).store;
    StepSound(h, s, ev);
    forall e | e in st'.live && e.tag.Failure? && e.tag.fid !in st'.index
      ensures e.tag.fid in st'.intents && AtMost(st'.intents[e.tag.fid].lower, e.id)
    {
      if e in s.store.live {
        StaysCovered(h, s, ev, e);
      } else {
        EntryOrigin(h, s, ev, e);
        assert IntentBacks(s.store, s.calls[ev.call], e.tag.fid);
        assert CallSound(s.store, s.calls[ev.call]);
      }
    }
  }

  lemma {:induction false} RunCovered(h: Hypotheses, run: seq<Event>)
    requires h.failStop && h.wholePass2 && h.freshReads && ValidRun(h, run)
    ensures Sound(Exec(h, run)) && Fenced(Exec(h, run)) && BoundsKnown(Exec(h, run)) && Covered(Exec(h, run).store)
  {
    RunFenced(h, run);
    if run != [] {
      var before, ev := run[..|run| - 1], run[|run| - 1];
      RunCovered(h, before);
      StepKeepsBounds(h, Exec(h, before), ev);
      StepKeepsCovered(h, Exec(h, before), ev);
    }
  }

  /** A stale adoption that scans from the recorded bound and finds nothing is right: the stream holds
      no entry of that failure at all, unless the failure is indexed already. */
  lemma LostMeansNothingLanded(h: Hypotheses, run: seq<Event>, fid: nat, owner: Owner)
    requires h.failStop && h.wholePass2 && h.freshReads && ValidRun(h, run)
    requires fid in Exec(h, run).store.log && Adopts(Exec(h, run).store, fid, owner, true)
    requires AdoptionScan(Exec(h, run).store, fid, owner, true, None)
    ensures fid in Exec(h, run).store.index || forall e :: e in Exec(h, run).store.live ==> e.tag != Failure(fid)
  {
    RunCovered(h, run);
    var st := Exec(h, run).store;
    assert forall e :: e in st.live && e.tag == Failure(fid) ==> e in st.ever;
  }

  // ---------------------------------------------------------------- each hypothesis is needed

  ghost predicate AlwaysCovered(h: Hypotheses) {
    forall run :: ValidRun(h, run) ==> Covered(Exec(h, run).store)
  }

  /** Without H1: pass 1 drops the intent of a live call, which then adds its entry uncovered. */
  lemma UncoveredWithoutFailStop(h: Hypotheses)
    requires !h.failStop
    ensures !AlwaysCovered(h)
  {
    var run := ReachOwning(h);
    var s := OWNING.(store := OWNING.store.(intents := map[]));
    run := Step(h, run, Pass1(0, 7, true, None), s);
    var s' := Apply(h, s, Xadd(0, Id(2, 0)));
    run := Step(h, run, Xadd(0, Id(2, 0)), s');
    assert ENTRY in Exec(h, run).store.live && !Covered(Exec(h, run).store);
  }

  /** Without H3: pass 2 adds an entry and then rolls its intent back. */
  lemma UncoveredWithoutWholePass2(h: Hypotheses)
    requires !h.wholePass2
    ensures !AlwaysCovered(h)
  {
    var run := ReachLogged(h);
    var ev := Pass2(0, 7, ZERO, false, None, None, Id(2, 0), RollsBack, false);
    run := Step(h, run, ev, Apply(h, Exec(h, run), ev));
    assert ENTRY in Exec(h, run).store.live && !Covered(Exec(h, run).store);
  }

  /** Without H5: the rollback of step 4 takes the index row away after the intent has gone. */
  lemma UncoveredWithoutFreshReads(h: Hypotheses)
    requires !h.freshReads
    ensures !AlwaysCovered(h)
  {
    var run := ReachRolledBack(h);
    assert ENTRY in Exec(h, run).store.live && !Covered(Exec(h, run).store);
  }

  /** Intents cover the stream in every run exactly when adopted calls stop, pass 2 never rolls an XADD back and
      the janitor's index reads still hold when it writes. */
  lemma CoveredIffHypotheses(h: Hypotheses)
    ensures AlwaysCovered(h) <==> h.failStop && h.wholePass2 && h.freshReads
  {
    if h.failStop && h.wholePass2 && h.freshReads {
      forall run | ValidRun(h, run) ensures Covered(Exec(h, run).store) {
        RunCovered(h, run);
      }
    } else if !h.failStop {
      UncoveredWithoutFailStop(h);
    } else if !h.wholePass2 {
      UncoveredWithoutWholePass2(h);
    } else {
      UncoveredWithoutFreshReads(h);
    }
  }
}
