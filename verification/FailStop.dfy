/** What the fail-stop hypothesis buys: a call that may still act on a failure either owns that
    failure's intent or comes too late, the failure being indexed already. */
module FailStop {
  import opened Options
  import opened RedisIds
  import opened Deadletter
  import opened LogRows
  import opened Agreement

  ghost predicate ConsumersOwn(s: State) {
    && (forall c :: c in s.calls ==> s.calls[c].owner.Consumer?)
    && (forall f :: f in s.store.intents ==> s.store.intents[f].owner.Consumer?)
  }

  ghost predicate IntentBacks(st: Store, call: Call, fid: nat) {
    fid in st.index || (fid in st.intents && st.intents[fid].owner == call.owner)
  }

  ghost predicate HoldersBacked(s: State) {
    forall c :: Active(s, c) && Holding(s.calls[c].pc)
                ==> IntentBacks(s.store, s.calls[c], s.calls[c].pc.fid)
  }

  ghost predicate Fenced(s: State) {
    ConsumersOwn(s) && HoldersBacked(s)
  }

  // ---------------------------------------------------------------- what happens to intents

  /** Intents only go. */
  ghost predicate IntentsShrink(a: Store, b: Store) {
    forall f :: f in b.intents ==> f in a.intents && b.intents[f] == a.intents[f]
  }

  /** The only statements that touch intents: acquisition, the index commit, and passes 1 and 2. */
  lemma OtherEventsKeepIntents(h: Hypotheses, s: State, ev: Event)
    requires Enabled(h, s, ev) && !ev.Acquire? && !ev.CommitIndex? && !ev.Pass1? && !ev.Pass2?
    ensures Apply(h, s, ev).store.intents == s.store.intents
  {
  }

  /** Acquisition leaves the other failures' intents and writes at most the acquirer's own. */
  lemma AcquireFate(st: Store, f: nat, owner: Owner, lower: Id, stale: bool, found: Option<Id>)
    ensures var st' := AcquireStore(st, f, owner, lower, stale, found);
            && (forall g :: g != f ==>
                (g in st'.intents <==> g in st.intents) && (g in st.intents ==> st'.intents[g] == st.intents[g]))
            && (f in st'.intents ==>
                st'.intents[f] == Intent(owner, lower) || (f in st.intents && st'.intents[f] == st.intents[f]))
            && (f in st.intents && !Adopts(st, f, owner, stale) ==> f in st'.intents && st'.intents[f] == st.intents[f])
  {
  }

  lemma SettleFate(st: Store, f: nat, canonical: Option<Id>, id: Id)
    requires f in st.log
    ensures var st' := SettleStore(st, f, canonical, id);
            f in st'.index && st'.intents == st.intents - {f}
  {
  }

  /** A pass-1 transaction touches only its own failure's intent, and that only by adopting it or having none. */
  lemma Pass1Fate(h: Hypotheses, s: State, ev: Event)
    requires Enabled(h, s, ev) && ev.Pass1? && ConsumersOwn(s)
    ensures var st, st' := s.store, Apply(h, s, ev).store;
            && IntentsShrink(st, st')
            && (forall g :: g in st.intents && !(g == ev.fid && Adopts(st, g, Janitor(ev.janitor), ev.stale)) ==>
                g in st'.intents)
  {
    AcquireFate(s.store, ev.fid, Janitor(ev.janitor), ZERO, ev.stale, ev.found);
  }

  /** So does a pass-2 transaction, unless it indexes the failure. */
  lemma Pass2Fate(h: Hypotheses, s: State, ev: Event)
    requires Enabled(h, s, ev) && ev.Pass2? && ConsumersOwn(s)
    ensures var st, st' := s.store, Apply(h, s, ev).store;
            && IntentsShrink(st, st')
            && (forall g :: g in st.intents && g !in st'.intents ==>
                  g == ev.fid && (g in st'.index || Adopts(st, g, Janitor(ev.janitor), ev.stale)))
  {
    var st, o := s.store, Janitor(ev.janitor);
    if ev.fate.Commits? {
      AcquireFate(st, ev.fid, o, ev.lower, ev.stale, ev.found);
      if AcquireOutcome(st, ev.fid, o, ev.stale, ev.found) == Own {
        var st1 := AcquireStore(st, ev.fid, o, ev.lower, ev.stale, ev.found);
        SettleFate(st1, ev.fid, if ev.late then ev.orphan else Canonical(st1, ev.fid, ev.orphan), ev.id);
      }
    }
  }

  lemma StepKeepsConsumers(h: Hypotheses, s: State, ev: Event)
    requires ConsumersOwn(s) && Enabled(h, s, ev)
    ensures ConsumersOwn(Apply(h, s, ev))
  {
    CallsKeepOwners(h, s, ev);
    if ev.Acquire? {
      var call := s.calls[ev.call];
      AcquireFate(s.store, call.pc.fid, call.owner, call.pc.lower, ev.stale, ev.found);
    } else if ev.Pass1? {
      Pass1Fate(h, s, ev);
    } else if ev.Pass2? {
      Pass2Fate(h, s, ev);
    } else if !ev.CommitIndex? {
      OtherEventsKeepIntents(h, s, ev);
    }
  }

  lemma CallsKeepOwners(h: Hypotheses, s: State, ev: Event)
    requires ConsumersOwn(s) && Enabled(h, s, ev)
    ensures forall c :: c in Apply(h, s, ev).calls ==> Apply(h, s, ev).calls[c].owner.Consumer?
  {
    if OfCall(ev) {
      OnlyOneCallMoves(h, s, ev);
    } else {
      PassesFill(h, s, ev);
    }
  }

  /** A consumer's intent for an un-indexed failure survives an event, unless the event adopts it
      and thereby stops its holders. */
  lemma IntentSurvives(h: Hypotheses, s: State, ev: Event, fid: nat)
    requires h.failStop && ConsumersOwn(s) && Enabled(h, s, ev)
    requires fid in s.store.intents && fid !in Apply(h, s, ev).store.index
    ensures var s' := Apply(h, s, ev);
            || (fid in s'.store.intents && s'.store.intents[fid].owner == s.store.intents[fid].owner)
            || Holders(s, fid, s.store.intents[fid].owner) <= s'.halted
  {
    if ev.Acquire? {
      var call := s.calls[ev.call];
      AcquireFate(s.store, call.pc.fid, call.owner, call.pc.lower, ev.stale, ev.found);
    } else if ev.Pass1? {
      Pass1Fate(h, s, ev);
    } else if ev.Pass2? {
      Pass2Fate(h, s, ev);
    } else if !ev.CommitIndex? {
      OtherEventsKeepIntents(h, s, ev);
    }
  }

  // ---------------------------------------------------------------- holders stay backed

  predicate Holding(pc: Pc) {
    pc.Owning? || Unsettled(pc)
  }

  /** One event leaves a call that did not move backed by its intent, or stops it. */
  lemma BystanderStaysBacked(h: Hypotheses, s: State, ev: Event, c: nat)
    requires h.failStop && h.freshReads && Sound(s) && Fenced(s) && Enabled(h, s, ev)
    requires Active(s, c) && Active(Apply(h, s, ev), c) && Holding(s.calls[c].pc)
    ensures IntentBacks(Apply(h, s, ev).store, s.calls[c], s.calls[c].pc.fid)
  {
    var fid := s.calls[c].pc.fid;
    assert IntentBacks(s.store, s.calls[c], fid);
    StepSound(h, s, ev);
    if fid !in s.store.index && fid !in Apply(h, s, ev).store.index {
      IntentSurvives(h, s, ev, fid);
      assert c in Holders(s, fid, s.store.intents[fid].owner);
    }
  }

  /** A call that holds after an event held before, for the same failure, or has just acquired the intent. */
  lemma HeldBefore(h: Hypotheses, s: State, ev: Event, c: nat)
    requires Enabled(h, s, ev) && Active(Apply(h, s, ev), c) && Holding(Apply(h, s, ev).calls[c].pc)
    ensures Active(s, c) && Apply(h, s, ev).calls[c].owner == s.calls[c].owner
    ensures var fid := Apply(h, s, ev).calls[c].pc.fid;
            || (Holding(s.calls[c].pc) && s.calls[c].pc.fid == fid)
            || (ev.Acquire? && ev.call == c && IntentBacks(Apply(h, s, ev).store, s.calls[c], fid))
  {
    if OfCall(ev) {
      OnlyOneCallMoves(h, s, ev);
      if c != ev.call {
        HaltedGrows(h, s, ev);
      }
    } else {
      PassesFill(h, s, ev);
      HaltedGrows(h, s, ev);
    }
  }

  lemma HaltedGrows(h: Hypotheses, s: State, ev: Event)
    requires Enabled(h, s, ev)
    ensures s.halted <= Apply(h, s, ev).halted
  {
  }

  lemma StepFenced(h: Hypotheses, s: State, ev: Event)
    requires h.failStop && h.freshReads && Sound(s) && Fenced(s) && Enabled(h, s, ev)
    ensures Fenced(Apply(h, s, ev))
  {
    var s' := Apply(h, s, ev);
    StepKeepsConsumers(h, s, ev);
    forall c | Active(s', c) && Holding(s'.calls[c].pc) ensures IntentBacks(s'.store, s'.calls[c], s'.calls[c].pc.fid) {
      HeldBefore(h, s, ev, c);
      if Holding(s.calls[c].pc) {
        BystanderStaysBacked(h, s, ev, c);
      }
    }
  }

  lemma {:induction false} RunFenced(h: Hypotheses, run: seq<Event>)
    requires h.failStop && h.freshReads && ValidRun(h, run)
    ensures Sound(Exec(h, run)) && Fenced(Exec(h, run))
  {
    RunSound(h, run);
    if run != [] {
      RunFenced(h, run[..|run| - 1]);
      StepFenced(h, Exec(h, run[..|run| - 1]), run[|run| - 1]);
    }
  }
}
