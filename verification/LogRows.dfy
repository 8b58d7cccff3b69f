/** What every run keeps of `deadletter_log`, with no hypothesis at all, not even that the janitor's transactions
    are atomic: one row per message, a recorded id is never changed, and a call that returned success left its
    message's row routed. */
module LogRows {
  import opened Options
  import opened RedisIds
  import opened Deadletter

  ghost predicate OneRowPerMessage(st: Store) {
    forall f, g :: f in st.log && g in st.log && st.log[f].msg == st.log[g].msg ==> f == g
  }

  /** The log row of `msg` is committed with the Redis id `r`. */
  ghost predicate RoutedAs(st: Store, msg: Msg, r: Id) {
    exists f :: f in st.log && st.log[f] == LogRow(msg, Some(r))
  }

  ghost predicate Routed(st: Store, msg: Msg) {
    exists r :: RoutedAs(st, msg, r)
  }

  /** The failure that a call works on, once it has logged it. */
  function FailureOf(pc: Pc): Option<nat> {
    if pc.Logged? || pc.Missed? || pc.Bounded? || pc.Owning? || pc.Added? || pc.Undoing? || pc.Rechecking?
      || pc.Finishing?
    then Some(pc.fid) else None
  }

  ghost predicate CallLogged(st: Store, call: Call) {
    && (FailureOf(call.pc).Some? ==>
        FailureOf(call.pc).value in st.log && st.log[FailureOf(call.pc).value].msg == call.msg)
    && (call.pc.Completed? ==> RoutedAs(st, call.msg, call.pc.rid))
    && (call.pc.Reconciled? ==> Routed(st, call.msg))
  }

  ghost predicate LogSound(s: State) {
    OneRowPerMessage(s.store) && forall c :: c in s.calls ==> CallLogged(s.store, s.calls[c])
  }

  /** No row goes, changes its message or changes an id once it has one. */
  ghost predicate LogGrows(a: Store, b: Store) {
    forall f :: f in a.log ==>
        f in b.log && b.log[f].msg == a.log[f].msg && (a.log[f].rid.Some? ==> b.log[f] == a.log[f])
  }

  /** The rows stay the same ones; at most ids are filled in. */
  ghost predicate OnlyFilled(a: Store, b: Store) {
    LogGrows(a, b) && a.log.Keys == b.log.Keys
  }

  lemma RoutedStays(a: Store, b: Store, msg: Msg, r: Id)
    requires LogGrows(a, b) && RoutedAs(a, msg, r)
    ensures RoutedAs(b, msg, r)
  {
    var f :| f in a.log && a.log[f] == LogRow(msg, Some(r));
    assert b.log[f] == LogRow(msg, Some(r));
  }

  lemma CallStaysLogged(a: Store, b: Store, call: Call)
    requires LogGrows(a, b) && CallLogged(a, call)
    ensures CallLogged(b, call)
  {
    if call.pc.Completed? {
      RoutedStays(a, b, call.msg, call.pc.rid);
    }
    if call.pc.Reconciled? {
      var r :| RoutedAs(a, call.msg, r);
      RoutedStays(a, b, call.msg, r);
    }
  }

  // ---------------------------------------------------------------- transactions

  lemma AcquireFills(st: Store, fid: nat, owner: Owner, lower: Id, stale: bool, found: Option<Id>)
    ensures var st' := AcquireStore(st, fid, owner, lower, stale, found);
            && OnlyFilled(st, st')
            && (AcquireOutcome(st, fid, owner, stale, found) == ReconciledByUs && fid in st.log ==>
                Routed(st', st.log[fid].msg))
  {
    var st' := AcquireStore(st, fid, owner, lower, stale, found);
    if AcquireOutcome(st, fid, owner, stale, found) == ReconciledByUs && fid in st.log {
      assert st'.log[fid].rid.Some?;
      assert RoutedAs(st', st.log[fid].msg, st'.log[fid].rid.value);
    }
  }

  lemma SettleFills(st: Store, fid: nat, canonical: Option<Id>, id: Id)
    requires fid in st.log
    ensures OnlyFilled(st, SettleStore(st, fid, canonical, id))
  {
  }

  lemma FinishFills(st: Store, fid: nat, rid: Id, ours: bool, stream: StreamName)
    requires fid in st.log
    ensures var st' := FinishStore(st, fid, rid, ours, stream);
            OnlyFilled(st, st')
              && st'.log[fid].rid == Some(if st.log[fid].rid.Some? then st.log[fid].rid.value else rid)
  {
  }

  lemma Pass2Fills(h: Hypotheses, s: State, ev: Event)
    requires ev.Pass2? && Enabled(h, s, ev)
    ensures OnlyFilled(s.store, Apply(h, s, ev).store)
  {
    var st, o := s.store, Janitor(ev.janitor);
    AcquireFills(st, ev.fid, o, ev.lower, ev.stale, ev.found);
    if ev.fate.Commits? && AcquireOutcome(st, ev.fid, o, ev.stale, ev.found) == Own {
      var st1 := AcquireStore(st, ev.fid, o, ev.lower, ev.stale, ev.found);
      SettleFills(st1, ev.fid, if ev.late then ev.orphan else Canonical(st1, ev.fid, ev.orphan), ev.id);
    }
  }

  lemma PassesFill(h: Hypotheses, s: State, ev: Event)
    requires (ev.Pass1? || ev.Pass2? || ev.Pass4? || ev.Miss? || ev.Foreign?) && Enabled(h, s, ev)
    ensures OnlyFilled(s.store, Apply(h, s, ev).store) && Apply(h, s, ev).calls == s.calls
  {
    if ev.Pass1? {
      Pass1Fills(h, s, ev);
    } else if ev.Pass2? {
      Pass2Fills(h, s, ev);
    } else {
      OthersFill(h, s, ev);
    }
  }

  lemma OthersFill(h: Hypotheses, s: State, ev: Event)
    requires (ev.Pass4? || ev.Miss? || ev.Foreign?) && Enabled(h, s, ev)
    ensures OnlyFilled(s.store, Apply(h, s, ev).store)
  {
    if ev.Pass4? {
      Pass4Fills(s.store, ev.entry);
    }
  }

  lemma Pass4Fills(st: Store, e: Entry)
    requires e.tag.Failure?
    ensures OnlyFilled(st, Pass4Store(st, e)) && OnlyFilled(st, Pass4Write(st, e))
  {
  }

  lemma Pass1Fills(h: Hypotheses, s: State, ev: Event)
    requires ev.Pass1? && Enabled(h, s, ev)
    ensures OnlyFilled(s.store, Apply(h, s, ev).store)
  {
    AcquireFills(s.store, ev.fid, Janitor(ev.janitor), ZERO, ev.stale, ev.found);
  }

  // ---------------------------------------------------------------- steps and runs

  /** A step of a routing call other than its first writes no new row. */
  lemma CallStepFills(h: Hypotheses, s: State, ev: Event)
    requires LogSound(s) && Enabled(h, s, ev) && (ev.Acquire? || ev.Finish?)
    ensures var s' := Apply(h, s, ev);
            OnlyFilled(s.store, s'.store) && CallLogged(s'.store, s'.calls[ev.call])
  {
    var call, s' := s.calls[ev.call], Apply(h, s, ev);
    assert CallLogged(s.store, call);
    if ev.Acquire? {
      AcquireFills(s.store, call.pc.fid, call.owner, call.pc.lower, ev.stale, ev.found);
    } else {
      FinishFills(s.store, call.pc.fid, call.pc.rid, call.pc.ours, call.msg.stream);
      assert s'.store.log[call.pc.fid] == LogRow(call.msg, Some(s'.calls[ev.call].pc.rid));
    }
  }

  lemma OtherStepsKeepLog(h: Hypotheses, s: State, ev: Event)
    requires LogSound(s) && Enabled(h, s, ev)
    requires ev.Begin? || ev.Lookup? || ev.Capture? || ev.Xadd? || ev.CommitIndex? || ev.Xdel? || ev.Recheck?
             || ev.Crash?
    ensures var s' := Apply(h, s, ev);
            s'.store.log == s.store.log && CallLogged(s'.store, s'.calls[ev.call])
  {
    assert !ev.Begin? ==> CallLogged(s.store, s.calls[ev.call]);
  }

  lemma LogStepKeepsRows(h: Hypotheses, s: State, ev: Event)
    requires LogSound(s) && Enabled(h, s, ev) && ev.Log?
    ensures var s' := Apply(h, s, ev);
            OneRowPerMessage(s'.store) && LogGrows(s.store, s'.store) && CallLogged(s'.store, s'.calls[ev.call])
  {
    var s' := Apply(h, s, ev);
    if ev.fid in s.store.log && s.store.log[ev.fid].rid.Some? {
      assert s'.store.log[ev.fid] == LogRow(s.calls[ev.call].msg, Some(s'.calls[ev.call].pc.rid));
    }
  }

  /** Events that belong to one call. */
  predicate OfCall(ev: Event) {
    !ev.Pass1? && !ev.Pass2? && !ev.Pass4? && !ev.Miss? && !ev.Foreign?
  }

  lemma OnlyOneCallMoves(h: Hypotheses, s: State, ev: Event)
    requires OfCall(ev) && Enabled(h, s, ev)
    ensures forall c :: c in Apply(h, s, ev).calls && c != ev.call ==>
        c in s.calls && Apply(h, s, ev).calls[c] == s.calls[c]
  {
  }

  lemma StepLogged(h: Hypotheses, s: State, ev: Event)
    requires LogSound(s) && Enabled(h, s, ev)
    ensures LogSound(Apply(h, s, ev)) && LogGrows(s.store, Apply(h, s, ev).store)
  {
    var s' := Apply(h, s, ev);
    if !OfCall(ev) {
      PassesFill(h, s, ev);
    } else {
      OnlyOneCallMoves(h, s, ev);
      if ev.Log? {
        LogStepKeepsRows(h, s, ev);
      } else if ev.Acquire? || ev.Finish? {
        CallStepFills(h, s, ev);
      } else {
        OtherStepsKeepLog(h, s, ev);
      }
    }
    forall c | c in s'.calls ensures CallLogged(s'.store, s'.calls[c]) {
      if !OfCall(ev) || c != ev.call {
        CallStaysLogged(s.store, s'.store, s.calls[c]);
      }
    }
  }

  lemma {:induction false} RunLogged(h: Hypotheses, run: seq<Event>)
    requires ValidRun(h, run)
    ensures LogSound(Exec(h, run))
  {
    if run != [] {
      RunLogged(h, run[..|run| - 1]);
      StepLogged(h, Exec(h, run[..|run| - 1]), run[|run| - 1]);
    }
  }

  /** A prefix of a valid run is valid. */
  lemma {:induction false} PrefixValid(h: Hypotheses, run: seq<Event>, n: nat)
    requires ValidRun(h, run) && n <= |run|
    ensures ValidRun(h, run[..n])
  {
    if n < |run| {
      assert run[..|run| - 1][..n] == run[..n];
      PrefixValid(h, run[..|run| - 1], n);
    } else {
      assert run[..n] == run;
    }
  }

  /** Write-once over whole runs, whatever interleaves: an id that a prefix recorded stays in its row. */
  lemma {:induction false} LogIsWriteOnce(h: Hypotheses, run: seq<Event>, n: nat)
    requires ValidRun(h, run) && n <= |run|
    ensures ValidRun(h, run[..n]) && LogGrows(Exec(h, run[..n]).store, Exec(h, run).store)
  {
    PrefixValid(h, run, n);
    if n == |run| {
      assert run[..n] == run;
    } else {
      var before := run[..|run| - 1];
      assert before[..n] == run[..n];
      LogIsWriteOnce(h, before, n);
      RunLogged(h, before);
      StepLogged(h, Exec(h, before), run[|run| - 1]);
    }
  }

  /** A routing call that returned success left its message's log row routed, and a completed one with the id
      that it returned. */
  lemma FinishedCallsAreRouted(h: Hypotheses, run: seq<Event>, c: nat)
    requires ValidRun(h, run) && c in Exec(h, run).calls
    ensures var s := Exec(h, run);
            && (s.calls[c].pc.Completed? ==> RoutedAs(s.store, s.calls[c].msg, s.calls[c].pc.rid))
            && (s.calls[c].pc.Reconciled? ==> Routed(s.store, s.calls[c].msg))
  {
    RunLogged(h, run);
    assert CallLogged(Exec(h, run).store, Exec(h, run).calls[c]);
  }
}
