/** What every interleaving and every crash keeps, without any hypothesis on who may still run, as long as the
    janitor's index reads still hold when it writes (H5): the log and the index agree, both are write-once, and
    they only name entries that were XADDed to the failure's own stream with the failure's own id. */
module Agreement {
  import opened Options
  import opened RedisIds
  import opened Deadletter
  import opened LogRows

  /** The id recorded in the log is the id recorded in the index. */
  ghost predicate LogMatchesIndex(st: Store) {
    forall f :: f in st.log && st.log[f].rid.Some? ==> f in st.index && st.index[f] == st.log[f].rid.value
  }

  /** An index row names an entry that really was added, to that log row's stream, for that failure. */
  ghost predicate IndexNamesAdded(st: Store) {
    forall f :: f in st.index ==> f in st.log && Entry(st.log[f].msg.stream, st.index[f], Failure(f)) in st.ever
  }

  /** Entries go to the stream of their failure, and a stream never reuses an id. */
  ghost predicate EntriesWellPlaced(st: Store) {
    && st.live <= st.ever
    && (forall e :: e in st.ever && e.tag.Failure? ==> e.tag.fid in st.log && st.log[e.tag.fid].msg.stream == e.stream)
    && (forall e, o :: e in st.ever && o in st.ever && e.stream == o.stream && e.id == o.id ==> e == o)
  }

  ghost predicate StoreSound(st: Store) {
    LogMatchesIndex(st) && IndexNamesAdded(st) && OneRowPerMessage(st) && EntriesWellPlaced(st)
  }

  /** What a call knows about the store at each of its program points. */
  ghost predicate CallSound(st: Store, call: Call) {
    && CallLogged(st, call)
    && (Unsettled(call.pc) ==> Entry(call.msg.stream, call.pc.rid, Failure(call.pc.fid)) in st.ever)
    && (call.pc.Finishing? ==> call.pc.fid in st.index && st.index[call.pc.fid] == call.pc.rid)
    && (call.pc.Reconciled? ==> RoutedAs(st, call.msg, call.pc.rid))
  }

  ghost predicate Sound(s: State) {
    StoreSound(s.store) && forall c :: c in s.calls ==> CallSound(s.store, s.calls[c])
  }

  /** Rows are write-once: nothing recorded is ever changed or removed. */
  ghost predicate Grows(a: Store, b: Store) {
    && LogGrows(a, b)
    && (forall f :: f in a.index ==> f in b.index && b.index[f] == a.index[f])
    && a.ever <= b.ever
  }

  lemma GrowsIsTransitive(a: Store, b: Store, c: Store)
    requires Grows(a, b) && Grows(b, c)
    ensures Grows(a, c)
  {
  }

  /** A store that only grew leaves every call's knowledge intact. */
  lemma CallStaysSound(a: Store, b: Store, call: Call)
    requires Grows(a, b) && CallSound(a, call)
    ensures CallSound(b, call)
  {
    CallStaysLogged(a, b, call);
    if call.pc.Reconciled? {
      RoutedStays(a, b, call.msg, call.pc.rid);
    }
  }

  // ---------------------------------------------------------------- store transactions

  lemma LogKeepsSound(st: Store, fid: nat, msg: Msg)
    requires StoreSound(st) && fid !in st.log && forall f :: f in st.log ==> st.log[f].msg != msg
    ensures var st' := st.(log := st.log[fid := LogRow(msg, None)]);
            StoreSound(st') && Grows(st, st')
  {
  }

  lemma CommitKeepsSound(st: Store, fid: nat, rid: Id)
    requires StoreSound(st) && fid in st.log && fid !in st.index
    requires Entry(st.log[fid].msg.stream, rid, Failure(fid)) in st.ever
    ensures var st' := IndexIfAbsent(st, fid, rid);
            StoreSound(st') && Grows(st, st')
  {
  }

  lemma DropKeepsSound(st: Store, e: Entry)
    requires StoreSound(st)
    ensures StoreSound(DropEntry(st, e)) && Grows(st, DropEntry(st, e))
  {
  }

  /** Filling in an id changes no message. */
  lemma MarkKeepsMessages(st: Store, fid: nat, rid: Id)
    ensures var st' := MarkRouted(st, fid, rid);
            && st'.log.Keys == st.log.Keys && (forall f :: f in st.log ==> st'.log[f].msg == st.log[f].msg)
            && st'.index == st.index && st'.live == st.live && st'.ever == st.ever && LogGrows(st, st')
  {
  }

  lemma MarkKeepsSound(st: Store, fid: nat, rid: Id)
    requires StoreSound(st) && fid in st.index && st.index[fid] == rid
    ensures StoreSound(MarkRouted(st, fid, rid)) && Grows(st, MarkRouted(st, fid, rid))
  {
    MarkKeepsMessages(st, fid, rid);
  }

  /** Index an added entry if the failure has none, then copy the index row into the log. */
  lemma SettleKeepsSound(st: Store, fid: nat, rid: Id)
    requires StoreSound(st) && fid in st.log
    requires fid in st.index || Entry(st.log[fid].msg.stream, rid, Failure(fid)) in st.ever
    ensures var st1 := IndexIfAbsent(st, fid, rid);
            var st2 := MarkRouted(st1, fid, st1.index[fid]);
            StoreSound(st2) && Grows(st, st2) && st2.log[fid].rid == Some(st1.index[fid]) && st2.index == st1.index
  {
    if fid !in st.index {
      CommitKeepsSound(st, fid, rid);
    }
    var st1 := IndexIfAbsent(st, fid, rid);
    MarkKeepsSound(st1, fid, st1.index[fid]);
  }

  lemma AddKeepsSound(st: Store, e: Entry)
    requires StoreSound(st) && FreshId(st, e.stream, e.id)
    requires e.tag.Failure? ==> e.tag.fid in st.log && st.log[e.tag.fid].msg.stream == e.stream
    ensures StoreSound(AddEntry(st, e)) && Grows(st, AddEntry(st, e))
  {
    forall o | o in st.ever && o.stream == e.stream ensures o.id != e.id {
      assert Before(o.id, e.id);
    }
  }

  /** Owning the intent touches nothing but the intent. */
  lemma OwnKeepsRecords(st: Store, f: nat, owner: Owner, lower: Id, stale: bool, found: Option<Id>)
    requires AcquireOutcome(st, f, owner, stale, found) == Own
    ensures var st' := AcquireStore(st, f, owner, lower, stale, found);
            st'.index == st.index && st'.log == st.log && st'.live == st.live && st'.ever == st.ever
  {
  }

  lemma DropIntentKeepsSound(st: Store, fid: nat)
    requires StoreSound(st)
    ensures StoreSound(DropIntent(st, fid)) && Grows(st, DropIntent(st, fid))
  {
  }

  /** Settling on a canonical id that is the index row, if there is one, and otherwise an added entry. */
  lemma SettleStoreKeepsSound(st: Store, fid: nat, rid: Id)
    requires StoreSound(st) && fid in st.log
    requires fid in st.index ==> st.index[fid] == rid
    requires fid !in st.index ==> Entry(st.log[fid].msg.stream, rid, Failure(fid)) in st.ever
    ensures var st' := DropIntent(MarkRouted(IndexIfAbsent(st, fid, rid), fid, rid), fid);
            && StoreSound(st') && Grows(st, st')
            && fid in st'.index && fid in st'.log && st'.log[fid].rid == Some(st'.index[fid])
  {
    SettleKeepsSound(st, fid, rid);
    var st2 := MarkRouted(IndexIfAbsent(st, fid, rid), fid, rid);
    DropIntentKeepsSound(st2, fid);
    GrowsIsTransitive(st, st2, DropIntent(st2, fid));
  }

  lemma AcquireKeepsSound(st: Store, fid: nat, owner: Owner, lower: Id, stale: bool, found: Option<Id>)
    requires StoreSound(st) && fid in st.log && AdoptionScan(st, fid, owner, stale, found)
    ensures var st' := AcquireStore(st, fid, owner, lower, stale, found);
            && StoreSound(st') && Grows(st, st') && st'.live == st.live && st'.ever == st.ever
            && (AcquireOutcome(st, fid, owner, stale, found) == ReconciledByUs ==>
                RoutedAs(st', st.log[fid].msg, st'.index[fid]))
            && (AcquireOutcome(st, fid, owner, stale, found) == Own ==> st'.index == st.index && st'.log == st.log)
  {
    if Adopts(st, fid, owner, stale) && found.Some? {
      ReconcileKeepsSound(st, fid, owner, lower, stale, found);
    } else {
      OtherwiseOnlyIntents(st, fid, owner, lower, stale, found);
    }
  }

  lemma ReconcileKeepsSound(st: Store, fid: nat, owner: Owner, lower: Id, stale: bool, found: Option<Id>)
    requires StoreSound(st) && fid in st.log && AdoptionScan(st, fid, owner, stale, found)
    requires Adopts(st, fid, owner, stale) && found.Some?
    ensures var st' := AcquireStore(st, fid, owner, lower, stale, found);
            && StoreSound(st') && Grows(st, st') && st'.live == st.live && st'.ever == st.ever
            && RoutedAs(st', st.log[fid].msg, st'.index[fid])
  {
    var st' := AcquireStore(st, fid, owner, lower, stale, found);
    SettleStoreKeepsSound(st, fid, if fid in st.index then st.index[fid] else found.value);
    assert st'.log[fid] == LogRow(st.log[fid].msg, Some(st'.index[fid]));
  }

  lemma OtherwiseOnlyIntents(st: Store, fid: nat, owner: Owner, lower: Id, stale: bool, found: Option<Id>)
    requires StoreSound(st) && !(Adopts(st, fid, owner, stale) && found.Some?)
    ensures var st' := AcquireStore(st, fid, owner, lower, stale, found);
            && StoreSound(st') && Grows(st, st')
            && st'.live == st.live && st'.ever == st.ever && st'.index == st.index && st'.log == st.log
  {
  }

  lemma RedriveKeepsSound(st: Store, fid: nat, orphan: Option<Id>, id: Id)
    requires StoreSound(st) && fid in st.log
    requires ScanAnswer(st, st.log[fid].msg.stream, ZERO, fid, orphan)
    requires FreshId(st, st.log[fid].msg.stream, id)
    ensures var st' := RedriveStore(st, fid, orphan, id);
            && StoreSound(st') && Grows(st, st')
            && fid in st'.index && fid in st'.log && st'.log[fid].rid == Some(st'.index[fid])
  {
    var canonical := Canonical(st, fid, orphan);
    if canonical.None? {
      var e := Entry(st.log[fid].msg.stream, id, Failure(fid));
      AddKeepsSound(st, e);
      SettleStoreKeepsSound(AddEntry(st, e), fid, id);
      GrowsIsTransitive(st, AddEntry(st, e), RedriveStore(st, fid, orphan, id));
    } else {
      assert fid !in st.index ==> Entry(st.log[fid].msg.stream, canonical.value, Failure(fid)) in st.live;
      SettleStoreKeepsSound(st, fid, canonical.value);
    }
  }

  lemma Pass4KeepsSound(st: Store, e: Entry)
    requires StoreSound(st) && e in st.ever && e.tag.Failure?
    ensures StoreSound(Pass4Store(st, e)) && Grows(st, Pass4Store(st, e))
  {
    if e.tag.fid !in st.index {
      SettleKeepsSound(st, e.tag.fid, e.id);
    }
  }

  // ---------------------------------------------------------------- steps and runs

  /** The lost-race rollback of step 4 cannot be reached: whoever won the log row named our entry. */
  lemma FinishNeverRollsBack(s: State, c: nat)
    requires Sound(s) && c in s.calls && s.calls[c].pc.Finishing?
    ensures var Finishing(fid, rid, ours) := s.calls[c].pc;
            && fid in s.store.log
            && (s.store.log[fid].rid.Some? ==> s.store.log[fid].rid.value == rid)
            && FinishStore(s.store, fid, rid, ours, s.calls[c].msg.stream) == MarkRouted(s.store, fid, rid)
  {
    assert CallSound(s.store, s.calls[c]);
  }

  lemma CommitStepKeepsStore(h: Hypotheses, s: State, ev: Event)
    requires Sound(s) && Enabled(h, s, ev) && ev.CommitIndex?
    ensures StoreSound(Apply(h, s, ev).store) && Grows(s.store, Apply(h, s, ev).store)
  {
    var call := s.calls[ev.call];
    assert CallSound(s.store, call);
    if !ev.dbError && call.pc.fid !in s.store.index {
      CommitKeepsSound(s.store, call.pc.fid, call.pc.rid);
    }
  }

  lemma AcquireStepKeepsStore(h: Hypotheses, s: State, ev: Event)
    requires Sound(s) && Enabled(h, s, ev) && ev.Acquire?
    ensures StoreSound(Apply(h, s, ev).store) && Grows(s.store, Apply(h, s, ev).store)
    ensures CallSound(Apply(h, s, ev).store, Apply(h, s, ev).calls[ev.call])
  {
    var call := s.calls[ev.call];
    assert CallSound(s.store, call);
    AcquireKeepsSound(s.store, call.pc.fid, call.owner, call.pc.lower, ev.stale, ev.found);
  }

  lemma RedisStepKeepsStore(h: Hypotheses, s: State, ev: Event)
    requires Sound(s) && Enabled(h, s, ev) && (ev.Xadd? || ev.Xdel?)
    ensures StoreSound(Apply(h, s, ev).store) && Grows(s.store, Apply(h, s, ev).store)
  {
    var call := s.calls[ev.call];
    assert CallSound(s.store, call);
    if ev.Xadd? {
      AddKeepsSound(s.store, Entry(call.msg.stream, ev.id, Failure(call.pc.fid)));
    } else {
      DropKeepsSound(s.store, Entry(call.msg.stream, call.pc.rid, Failure(call.pc.fid)));
    }
  }

  lemma LogStepKeepsStore(h: Hypotheses, s: State, ev: Event)
    requires Sound(s) && Enabled(h, s, ev) && (ev.Log? || ev.Finish?)
    ensures StoreSound(Apply(h, s, ev).store) && Grows(s.store, Apply(h, s, ev).store)
  {
    var call := s.calls[ev.call];
    if ev.Finish? {
      assert CallSound(s.store, call);
      FinishNeverRollsBack(s, ev.call);
      MarkKeepsSound(s.store, call.pc.fid, call.pc.rid);
    } else if ev.fid !in s.store.log {
      LogKeepsSound(s.store, ev.fid, call.msg);
    }
  }

  lemma RoutingKeepsStoreSound(h: Hypotheses, s: State, ev: Event)
    requires Sound(s) && Enabled(h, s, ev) && OfCall(ev)
    ensures StoreSound(Apply(h, s, ev).store) && Grows(s.store, Apply(h, s, ev).store)
  {
    if ev.CommitIndex? {
      CommitStepKeepsStore(h, s, ev);
    } else if ev.Acquire? {
      AcquireStepKeepsStore(h, s, ev);
    } else if ev.Xadd? || ev.Xdel? {
      RedisStepKeepsStore(h, s, ev);
    } else if ev.Log? || ev.Finish? {
      LogStepKeepsStore(h, s, ev);
    } else {
      ReadsKeepStore(h, s, ev);
    }
  }

  lemma ReadsKeepStore(h: Hypotheses, s: State, ev: Event)
    requires Enabled(h, s, ev) && (ev.Begin? || ev.Lookup? || ev.Capture? || ev.Recheck? || ev.Crash? || ev.Miss?)
    ensures Apply(h, s, ev).store == s.store
  {
  }

  lemma Pass2KeepsStoreSound(h: Hypotheses, s: State, ev: Event)
    requires h.freshReads && StoreSound(s.store) && Enabled(h, s, ev) && ev.Pass2?
    ensures StoreSound(Apply(h, s, ev).store) && Grows(s.store, Apply(h, s, ev).store)
  {
    var st, o := s.store, Janitor(ev.janitor);
    if ev.fate.RollsBack? {
      AddKeepsSound(st, Entry(st.log[ev.fid].msg.stream, ev.id, Failure(ev.fid)));
    } else {
      AcquireKeepsSound(st, ev.fid, o, ev.lower, ev.stale, ev.found);
      if AcquireOutcome(st, ev.fid, o, ev.stale, ev.found) == Own {
        RedriveKeepsSound(AcquireStore(st, ev.fid, o, ev.lower, ev.stale, ev.found), ev.fid, ev.orphan, ev.id);
      }
    }
  }

  lemma JanitorKeepsStoreSound(h: Hypotheses, s: State, ev: Event)
    requires h.freshReads && StoreSound(s.store) && Enabled(h, s, ev) && !OfCall(ev)
    ensures StoreSound(Apply(h, s, ev).store) && Grows(s.store, Apply(h, s, ev).store)
  {
    if ev.Pass1? {
      AcquireKeepsSound(s.store, ev.fid, Janitor(ev.janitor), ZERO, ev.stale, ev.found);
    } else if ev.Pass2? {
      Pass2KeepsStoreSound(h, s, ev);
    } else if ev.Pass4? {
      Pass4KeepsSound(s.store, ev.entry);
    } else if ev.Foreign? {
      AddKeepsSound(s.store, ev.entry);
    } else {
      ReadsKeepStore(h, s, ev);
    }
  }

  /** The call that moved knows what its new program point promises. */
  lemma MoverSound(h: Hypotheses, s: State, ev: Event)
    requires && Sound(s) && Enabled(h, s, ev) && OfCall(ev)
             && CallLogged(Apply(h, s, ev).store, Apply(h, s, ev).calls[ev.call])
    ensures CallSound(Apply(h, s, ev).store, Apply(h, s, ev).calls[ev.call])
  {
    if ev.Acquire? {
      AcquireStepKeepsStore(h, s, ev);
    } else if ev.Xadd? || ev.CommitIndex? {
      WriterSound(h, s, ev);
    } else {
      ReaderSound(h, s, ev);
    }
  }

  lemma WriterSound(h: Hypotheses, s: State, ev: Event)
    requires Sound(s) && Enabled(h, s, ev) && (ev.Xadd? || ev.CommitIndex?)
    requires CallLogged(Apply(h, s, ev).store, Apply(h, s, ev).calls[ev.call])
    ensures CallSound(Apply(h, s, ev).store, Apply(h, s, ev).calls[ev.call])
  {
    assert CallSound(s.store, s.calls[ev.call]);
  }

  lemma ReaderSound(h: Hypotheses, s: State, ev: Event)
    requires Enabled(h, s, ev) && OfCall(ev) && !ev.Acquire? && !ev.Xadd? && !ev.CommitIndex?
    requires CallLogged(Apply(h, s, ev).store, Apply(h, s, ev).calls[ev.call])
    ensures CallSound(Apply(h, s, ev).store, Apply(h, s, ev).calls[ev.call])
  {
  }

  lemma StepSound(h: Hypotheses, s: State, ev: Event)
    requires h.freshReads && Sound(s) && Enabled(h, s, ev)
    ensures Sound(Apply(h, s, ev)) && Grows(s.store, Apply(h, s, ev).store)
  {
    var s' := Apply(h, s, ev);
    SoundIsLogSound(s);
    StepLogged(h, s, ev);
    if OfCall(ev) {
      RoutingKeepsStoreSound(h, s, ev);
      OnlyOneCallMoves(h, s, ev);
      MoverSound(h, s, ev);
    } else {
      JanitorKeepsStoreSound(h, s, ev);
      PassesFill(h, s, ev);
    }
    forall c | c in s'.calls ensures CallSound(s'.store, s'.calls[c]) {
      if !OfCall(ev) || c != ev.call {
        CallStaysSound(s.store, s'.store, s.calls[c]);
      }
    }
  }

  lemma SoundIsLogSound(s: State)
    requires Sound(s)
    ensures LogSound(s)
  {
    forall c | c in s.calls ensures CallLogged(s.store, s.calls[c]) {
      assert CallSound(s.store, s.calls[c]);
    }
  }

  /** Every run, whatever interleaves and crashes: log and index agree and name added entries. */
  lemma {:induction false} RunSound(h: Hypotheses, run: seq<Event>)
    requires h.freshReads && ValidRun(h, run)
    ensures Sound(Exec(h, run))
  {
    if run != [] {
      RunSound(h, run[..|run| - 1]);
      StepSound(h, Exec(h, run[..|run| - 1]), run[|run| - 1]);
    }
  }

  /** Write-once over whole runs: whatever a prefix recorded is recorded, unchanged, at the end. */
  lemma {:induction false} RecordsAreWriteOnce(h: Hypotheses, run: seq<Event>, n: nat)
    requires h.freshReads && ValidRun(h, run) && n <= |run|
    ensures ValidRun(h, run[..n]) && Grows(Exec(h, run[..n]).store, Exec(h, run).store)
  {
    PrefixValid(h, run, n);
    if n == |run| {
      assert run[..n] == run;
    } else {
      var before := run[..|run| - 1];
      assert before[..n] == run[..n];
      RecordsAreWriteOnce(h, before, n);
      RunSound(h, before);
      StepSound(h, Exec(h, before), run[|run| - 1]);
      GrowsIsTransitive(Exec(h, run[..n]).store, Exec(h, before).store, Exec(h, run).store);
    }
  }
}
