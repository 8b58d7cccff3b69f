/** What one routing call does: which earlier reads its later steps rest on in every run, what it leaves behind when
    nobody interferes, and that it can always come to an end. */
module RoutingCalls {
  import opened Options
  import opened RedisIds
  import opened Deadletter
  import opened LogRows
  import opened Agreement

  // ---------------------------------------------------------------- the reads behind an XADD

  /** The call has found its failure un-indexed and works on an entry of its own. */
  predicate PastLookup(pc: Pc) {
    || pc.Missed? || pc.Bounded? || pc.Owning? || pc.Added? || pc.Undoing? || pc.Rechecking?
    || (pc.Finishing? && pc.ours)
  }

  /** The call logged `fid` as event `n`, with no Redis id in the row. */
  ghost predicate LoggedAt(h: Hypotheses, run: seq<Event>, n: nat, c: nat, fid: nat) {
    && n < |run| && run[n] == Log(c, fid) && ValidRun(h, run[..n])
    && var st := Exec(h, run[..n]).store; fid in st.log ==> st.log[fid].rid == None
  }

  /** The call looked `fid` up as event `n`, and the index had no row. */
  ghost predicate MissedAt(h: Hypotheses, run: seq<Event>, n: nat, c: nat, fid: nat) {
    && n < |run| && run[n] == Lookup(c) && ValidRun(h, run[..n])
    && var s := Exec(h, run[..n]); c in s.calls && s.calls[c].pc == Logged(fid) && fid !in s.store.index
  }

  /** Only these two events take a call to a failure, and past the lookup. */
  lemma StepsThatCommit(h: Hypotheses, s: State, ev: Event, c: nat)
    requires Enabled(h, s, ev) && c in Apply(h, s, ev).calls
    ensures var s' := Apply(h, s, ev);
            && (FailureOf(s'.calls[c].pc).Some? ==>
                || (c in s.calls && FailureOf(s.calls[c].pc) == FailureOf(s'.calls[c].pc))
                || (ev == Log(c, FailureOf(s'.calls[c].pc).value)
                    && (ev.fid in s.store.log ==> s.store.log[ev.fid].rid == None)))
            && (PastLookup(s'.calls[c].pc) ==>
                && c in s.calls && FailureOf(s.calls[c].pc) == FailureOf(s'.calls[c].pc)
                && (PastLookup(s.calls[c].pc)
                    || (ev == Lookup(c) && s.calls[c].pc.Logged? && s.calls[c].pc.fid !in s.store.index)))
  {
    if !OfCall(ev) {
      PassesFill(h, s, ev);
    } else {
      OnlyOneCallMoves(h, s, ev);
    }
  }

  lemma LoggedAtStays(h: Hypotheses, run: seq<Event>, ev: Event, n: nat, c: nat, fid: nat)
    requires LoggedAt(h, run, n, c, fid) || MissedAt(h, run, n, c, fid)
    ensures LoggedAt(h, run, n, c, fid) ==> LoggedAt(h, run + [ev], n, c, fid)
    ensures MissedAt(h, run, n, c, fid) ==> MissedAt(h, run + [ev], n, c, fid)
  {
    assert (run + [ev])[..n] == run[..n];
  }

  lemma {:induction false} ReadsBehind(h: Hypotheses, run: seq<Event>, c: nat)
    requires ValidRun(h, run) && c in Exec(h, run).calls
    ensures var pc := Exec(h, run).calls[c].pc;
            && (FailureOf(pc).Some? ==> exists n :: LoggedAt(h, run, n, c, FailureOf(pc).value))
            && (PastLookup(pc) ==> exists n :: MissedAt(h, run, n, c, FailureOf(pc).value))
  {
    if run != [] {
      var before, ev := run[..|run| - 1], run[|run| - 1];
      assert run == before + [ev];
      var s, s' := Exec(h, before), Exec(h, run);
      var pc' := s'.calls[c].pc;
      StepsThatCommit(h, s, ev, c);
      if c in s.calls {
        ReadsBehind(h, before, c);
      }
      if FailureOf(pc').Some? {
        if c in s.calls && FailureOf(s.calls[c].pc) == FailureOf(pc') {
          var n :| LoggedAt(h, before, n, c, FailureOf(pc').value);
          LoggedAtStays(h, before, ev, n, c, FailureOf(pc').value);
        } else {
          assert LoggedAt(h, run, |before|, c, FailureOf(pc').value);
        }
      }
      if PastLookup(pc') {
        if PastLookup(s.calls[c].pc) {
          var n :| MissedAt(h, before, n, c, FailureOf(pc').value);
          LoggedAtStays(h, before, ev, n, c, FailureOf(pc').value);
        } else {
          assert MissedAt(h, run, |before|, c, FailureOf(pc').value);
        }
      }
    }
  }

  /** A call may add an entry only after it found its message's row without a Redis id and its failure without an
      index row. */
  lemma XaddFollowsMiss(h: Hypotheses, run: seq<Event>, c: nat, id: Id)
    requires ValidRun(h, run) && Enabled(h, Exec(h, run), Xadd(c, id))
    ensures var fid := Exec(h, run).calls[c].pc.fid;
            && (exists n :: LoggedAt(h, run, n, c, fid))
            && (exists n :: MissedAt(h, run, n, c, fid))
  {
    ReadsBehind(h, run, c);
  }

  // ---------------------------------------------------------------- a call that finds an index row

  /** The call only has step 4 left, for an entry that is not its own, or is over. */
  predicate Quiet(pc: Pc, fid: nat, rid: Id) {
    pc == Finishing(fid, rid, false) || pc.Completed? || pc.Crashed?
  }

  /** The call raised, and may at most die. */
  predicate GivenUp(pc: Pc) {
    pc.Raised? || pc.Crashed?
  }

  /** Nothing but the log differs. */
  ghost predicate OnlyLogDiffers(a: Store, b: Store) {
    a.index == b.index && a.intents == b.intents && a.live == b.live && a.ever == b.ever
  }

  lemma QuietStays(h: Hypotheses, s: State, ev: Event, c: nat, fid: nat, rid: Id)
    requires Enabled(h, s, ev) && c in s.calls && Quiet(s.calls[c].pc, fid, rid)
    ensures var s' := Apply(h, s, ev);
            && c in s'.calls && Quiet(s'.calls[c].pc, fid, rid)
            && (OfCall(ev) && ev.call == c ==> OnlyLogDiffers(s.store, s'.store))
  {
    if !OfCall(ev) {
      PassesFill(h, s, ev);
    } else if ev.call != c {
      OnlyOneCallMoves(h, s, ev);
      CallsStay(h, s, ev, c);
    }
  }

  lemma CallsStay(h: Hypotheses, s: State, ev: Event, c: nat)
    requires Enabled(h, s, ev) && c in s.calls
    ensures c in Apply(h, s, ev).calls
  {
  }

  lemma GivenUpStays(h: Hypotheses, s: State, ev: Event, c: nat)
    requires Enabled(h, s, ev) && c in s.calls && GivenUp(s.calls[c].pc)
    ensures var s' := Apply(h, s, ev);
            && c in s'.calls && GivenUp(s'.calls[c].pc)
            && (OfCall(ev) && ev.call == c ==> s.store == s'.store)
  {
    if !OfCall(ev) {
      PassesFill(h, s, ev);
    } else if ev.call != c {
      OnlyOneCallMoves(h, s, ev);
      CallsStay(h, s, ev, c);
    }
  }

  /** The call reads the index for `fid` as event `n`: its lookup, or its second look after it withdrew its entry. */
  ghost predicate ReadsIndexAt(h: Hypotheses, run: seq<Event>, n: nat, c: nat, fid: nat) {
    && n < |run| && (run[n] == Lookup(c) || run[n] == Recheck(c)) && ValidRun(h, run[..n])
    && var s := Exec(h, run[..n]); c in s.calls && FailureOf(s.calls[c].pc) == Some(fid)
  }

  /** What one event of a run does to everything but the log. */
  ghost predicate TouchesOnlyLog(h: Hypotheses, run: seq<Event>, k: nat)
    requires k < |run|
  {
    && ValidRun(h, run[..k]) && ValidRun(h, run[..k + 1])
    && OnlyLogDiffers(Exec(h, run[..k]).store, Exec(h, run[..k + 1]).store)
  }

  /** From event `n` on, the call's own events touch nothing but the log. */
  ghost predicate QuietFrom(h: Hypotheses, run: seq<Event>, n: nat, c: nat) {
    forall k :: n <= k < |run| && OfCall(run[k]) && run[k].call == c ==> TouchesOnlyLog(h, run, k)
  }

  lemma QuietOneMore(h: Hypotheses, run: seq<Event>, n: nat, c: nat)
    requires ValidRun(h, run) && run != [] && n < |run|
    requires QuietFrom(h, run[..|run| - 1], n, c)
    requires var s, ev := Exec(h, run[..|run| - 1]), run[|run| - 1];
             OfCall(ev) && ev.call == c ==> OnlyLogDiffers(s.store, Apply(h, s, ev).store)
    ensures QuietFrom(h, run, n, c)
  {
    var before := run[..|run| - 1];
    assert run[..|run|] == run;
    forall k | n <= k < |run| && OfCall(run[k]) && run[k].call == c ensures TouchesOnlyLog(h, run, k) {
      if k < |before| {
        assert TouchesOnlyLog(h, before, k);
        assert before[..k] == run[..k] && before[..k + 1] == run[..k + 1];
      }
    }
  }

  /** A call that finds an index row goes on to step 4 with that row's id, in every run and whatever the others do:
      it never touches the stream, the intents or the index, and ends with an id or with a crash. */
  lemma {:induction false} IndexedCallIsQuiet(h: Hypotheses, run: seq<Event>, n: nat, c: nat, fid: nat)
    requires ValidRun(h, run) && ReadsIndexAt(h, run, n, c, fid) && fid in Exec(h, run[..n]).store.index
    ensures c in Exec(h, run).calls
    ensures Quiet(Exec(h, run).calls[c].pc, fid, Exec(h, run[..n]).store.index[fid])
    ensures QuietFrom(h, run, n, c)
  {
    var before, ev := run[..|run| - 1], run[|run| - 1];
    if n < |run| - 1 {
      assert before[..n] == run[..n];
      IndexedCallIsQuiet(h, before, n, c, fid);
      QuietStays(h, Exec(h, before), ev, c, fid, Exec(h, run[..n]).store.index[fid]);
    }
    QuietOneMore(h, run, n, c);
  }

  /** Under H5 the id with which such a call completes is the one that it read. */
  lemma IndexedCallReturnsRow(h: Hypotheses, run: seq<Event>, n: nat, c: nat, fid: nat)
    requires h.freshReads && ValidRun(h, run) && ReadsIndexAt(h, run, n, c, fid)
    requires fid in Exec(h, run[..n]).store.index
    ensures c in Exec(h, run).calls
    ensures Exec(h, run).calls[c].pc.Completed? ==>
        Exec(h, run).calls[c].pc == Completed(Exec(h, run[..n]).store.index[fid])
  {
    IndexedCallIsQuiet(h, run, n, c, fid);
    RecordsAreWriteOnce(h, run, n);
    RunSound(h, run);
    RunSound(h, run[..n]);
    LogIsWriteOnce(h, run, n);
    MessagesStay(h, run, n, c);
  }

  lemma {:induction false} MessagesStay(h: Hypotheses, run: seq<Event>, n: nat, c: nat)
    requires ValidRun(h, run) && n <= |run| && ValidRun(h, run[..n]) && c in Exec(h, run[..n]).calls
    ensures c in Exec(h, run).calls && Exec(h, run).calls[c].msg == Exec(h, run[..n]).calls[c].msg
  {
    if n == |run| {
      assert run[..n] == run;
    } else {
      var before := run[..|run| - 1];
      assert before[..n] == run[..n];
      MessagesStay(h, before, n, c);
      MessageStays(h, Exec(h, before), run[|run| - 1], c);
    }
  }

  lemma MessageStays(h: Hypotheses, s: State, ev: Event, c: nat)
    requires Enabled(h, s, ev) && c in s.calls
    ensures c in Apply(h, s, ev).calls && Apply(h, s, ev).calls[c].msg == s.calls[c].msg
  {
  }

  /** A call that withdrew its entry and finds no index row raises, and never touches anything again. */
  lemma {:induction false} UnindexedRecheckRaises(h: Hypotheses, run: seq<Event>, n: nat, c: nat, fid: nat)
    requires ValidRun(h, run) && ReadsIndexAt(h, run, n, c, fid) && run[n] == Recheck(c)
    requires fid !in Exec(h, run[..n]).store.index
    ensures c in Exec(h, run).calls && GivenUp(Exec(h, run).calls[c].pc)
    ensures QuietFrom(h, run, n, c)
  {
    var before, ev := run[..|run| - 1], run[|run| - 1];
    if n < |run| - 1 {
      assert before[..n] == run[..n];
      UnindexedRecheckRaises(h, before, n, c, fid);
      GivenUpStays(h, Exec(h, before), ev, c);
    }
    QuietOneMore(h, run, n, c);
  }

  // ---------------------------------------------------------------- undisturbed calls

  /** The events lead from `s` to `s'`. */
  ghost predicate Leads(h: Hypotheses, s: State, evs: seq<Event>, s': State)
    decreases |evs|
  {
    if evs == [] then s == s' else Enabled(h, s, evs[0]) && Leads(h, Apply(h, s, evs[0]), evs[1..], s')
  }

  /** From where a valid run ends, they extend the run. */
  lemma {:induction false} LeadsExtends(h: Hypotheses, run: seq<Event>, evs: seq<Event>, s': State)
    requires ValidRun(h, run) && Leads(h, Exec(h, run), evs, s')
    ensures ValidRun(h, run + evs) && Exec(h, run + evs) == s'
    decreases |evs|
  {
    if evs == [] {
      assert run + evs == run;
    } else {
      Extend(h, run, evs[0]);
      LeadsExtends(h, run + [evs[0]], evs[1..], s');
      assert run + [evs[0]] + evs[1..] == run + evs;
    }
  }

  lemma LeadsFirst(h: Hypotheses, s: State, ev: Event, s1: State, evs: seq<Event>, s': State)
    requires Enabled(h, s, ev) && Apply(h, s, ev) == s1 && Leads(h, s1, evs, s')
    ensures Leads(h, s, [ev] + evs, s')
  {
    assert ([ev] + evs)[1..] == evs;
  }

  lemma {:induction false} LeadsOn(h: Hypotheses, s: State, evs: seq<Event>, s1: State, evs': seq<Event>, s': State)
    requires Leads(h, s, evs, s1) && Leads(h, s1, evs', s')
    ensures Leads(h, s, evs + evs', s')
    decreases |evs|
  {
    if evs == [] {
      assert evs + evs' == evs';
    } else {
      LeadsOn(h, Apply(h, s, evs[0]), evs[1..], s1, evs', s');
      assert (evs + evs')[0] == evs[0] && (evs + evs')[1..] == evs[1..] + evs';
    }
  }

  /** The state in which the call stands at `pc` and the tables are `st`. */
  function Placed(s: State, c: nat, pc: Pc, st: Store): State
    requires c in s.calls
  {
    State(st, s.calls[c := Call(s.calls[c].owner, s.calls[c].msg, pc)], s.halted, s.misses)
  }

  lemma PlacedTwice(s: State, c: nat, pc: Pc, st: Store, pc': Pc, st': Store)
    requires c in s.calls
    ensures Placed(Placed(s, c, pc, st), c, pc', st') == Placed(s, c, pc', st')
  {
  }

  predicate Begun(s: State, c: nat) {
    c in s.calls && c !in s.halted && s.calls[c].pc == Started
  }

  /** The row of the call's message, if there is one, is `fid`; if there is none, `fid` is new. */
  ghost predicate RowOf(s: State, c: nat, fid: nat)
    requires c in s.calls
  {
    if fid in s.store.log then s.store.log[fid].msg == s.calls[c].msg
    else forall f :: f in s.store.log ==> s.store.log[f].msg != s.calls[c].msg
  }

  /** The tables once the call's message has its row. */
  function WithRow(st: Store, fid: nat, msg: Msg, rid: Option<Id>): Store {
    Store(st.log[fid := LogRow(msg, rid)], st.index, st.intents, st.live, st.ever)
  }

  /** A message that is routed already: the call completes with the recorded id and changes nothing. */
  lemma RoutedCompletesAtOnce(h: Hypotheses, s: State, c: nat, fid: nat, rid: Id)
    requires Begun(s, c) && fid in s.store.log && s.store.log[fid] == LogRow(s.calls[c].msg, Some(rid))
    ensures Leads(h, s, [Log(c, fid)], Placed(s, c, Completed(rid), s.store))
  {
    LeadsFirst(h, s, Log(c, fid), Placed(s, c, Completed(rid), s.store), [], Placed(s, c, Completed(rid), s.store));
  }

  /** The message is not routed: the call has or makes its row. */
  lemma LogsItsRow(h: Hypotheses, s: State, c: nat, fid: nat)
    requires Begun(s, c) && RowOf(s, c, fid) && (fid in s.store.log ==> s.store.log[fid].rid == None)
    ensures Leads(h, s, [Log(c, fid)], Placed(s, c, Logged(fid), WithRow(s.store, fid, s.calls[c].msg, None)))
  {
    var s1 := Placed(s, c, Logged(fid), WithRow(s.store, fid, s.calls[c].msg, None));
    if fid in s.store.log {
      assert s.store.log[fid] == LogRow(s.calls[c].msg, None);
      assert s.store.log[fid := LogRow(s.calls[c].msg, None)] == s.store.log;
    }
    LeadsFirst(h, s, Log(c, fid), s1, [], s1);
  }

  /** An indexed failure: step 4 records the indexed id, and nothing else changes. */
  lemma IndexedCompletes(h: Hypotheses, s: State, c: nat, fid: nat)
    requires Active(s, c) && s.calls[c].pc == Logged(fid) && fid in s.store.index
    requires fid in s.store.log && s.store.log[fid] == LogRow(s.calls[c].msg, None)
    ensures var rid := s.store.index[fid];
            Leads(h, s, [Lookup(c), Finish(c)],
                Placed(s, c, Completed(rid), WithRow(s.store, fid, s.calls[c].msg, Some(rid))))
  {
    var rid := s.store.index[fid];
    var s1 := Placed(s, c, Finishing(fid, rid, false), s.store);
    var s2 := Placed(s, c, Completed(rid), WithRow(s.store, fid, s.calls[c].msg, Some(rid)));
    LeadsFirst(h, s1, Finish(c), s2, [], s2);
    LeadsFirst(h, s, Lookup(c), s1, [Finish(c)], s2);
  }

  /** An un-indexed failure: the call comes to acquisition with the bound that it captured. */
  lemma UnindexedComesToAcquisition(h: Hypotheses, s: State, c: nat, fid: nat, lower: Id)
    requires Active(s, c) && s.calls[c].pc == Logged(fid) && fid !in s.store.index
    requires CapturedBound(s.store, s.calls[c].msg.stream, lower)
    ensures Leads(h, s, [Lookup(c), Capture(c, lower)], Placed(s, c, Bounded(fid, lower), s.store))
  {
    var s1 := Placed(s, c, Missed(fid), s.store);
    var s2 := Placed(s, c, Bounded(fid, lower), s.store);
    LeadsFirst(h, s1, Capture(c, lower), s2, [], s2);
    LeadsFirst(h, s, Lookup(c), s1, [Capture(c, lower)], s2);
  }

  /** The bound can be the tail of the stream, so that everything already there lies at or below it. */
  lemma BoundCanBeTail(st: Store, stream: StreamName) returns (lower: Id)
    ensures CapturedBound(st, stream, lower)
    ensures forall e :: e in st.live && e.stream == stream ==> AtMost(e.id, lower)
  {
    lower := GreatestId(set e | e in st.live && e.stream == stream);
  }

  lemma {:induction false} GreatestId(entries: set<Entry>) returns (greatest: Id)
    ensures if entries == {} then greatest == ZERO else exists e :: e in entries && e.id == greatest
    ensures forall e :: e in entries ==> AtMost(e.id, greatest)
  {
    greatest := ZERO;
    if e :| e in entries {
      greatest := GreatestId(entries - {e});
      assert forall o :: o in entries ==> o == e || o in entries - {e};
      if entries == {e} || Before(greatest, e.id) {
        greatest := e.id;
      }
    }
  }

  function WithIntents(st: Store, intents: map<nat, Intent>): Store {
    Store(st.log, st.index, intents, st.live, st.ever)
  }

  /** No intent: the call leaves its own, with its bound, and owns the failure.  Its own earlier intent: it owns the
      failure and the old bound stays.  Another owner's with a live heartbeat: it gives way and changes nothing. */
  lemma AcquiresOrGivesWay(h: Hypotheses, s: State, c: nat, fid: nat, lower: Id)
    requires Active(s, c) && s.calls[c].pc == Bounded(fid, lower)
    ensures var st, owner := s.store, s.calls[c].owner;
            Leads(h, s, [Acquire(c, false, None)],
                if fid !in st.intents then
                  Placed(s, c, Owning(fid), WithIntents(st, st.intents[fid := Intent(owner, lower)]))
                else Placed(s, c, if st.intents[fid].owner == owner then Owning(fid) else Aborted, st))
  {
    var st, owner := s.store, s.calls[c].owner;
    var s1 := if fid !in st.intents then
        Placed(s, c, Owning(fid), WithIntents(st, st.intents[fid := Intent(owner, lower)]))
      else Placed(s, c, if st.intents[fid].owner == owner then Owning(fid) else Aborted, st);
    LeadsFirst(h, s, Acquire(c, false, None), s1, [], s1);
  }

  /** Another owner's intent whose heartbeat is stale: if the scan finds the entry, the call records it in log and index
      and drops the intent; if not, it replaces the intent by its own, with its own bound, and owns the failure. */
  lemma AdoptsStaleIntent(h: Hypotheses, s: State, c: nat, fid: nat, lower: Id, found: Option<Id>)
    requires Active(s, c) && s.calls[c].pc == Bounded(fid, lower) && fid !in s.store.index
    requires fid in s.store.log && s.store.log[fid] == LogRow(s.calls[c].msg, None)
    requires fid in s.store.intents && s.store.intents[fid].owner != s.calls[c].owner
    requires ScanAnswer(s.store, s.calls[c].msg.stream, s.store.intents[fid].lower, fid, found)
    ensures Enabled(h, s, Acquire(c, true, found))
    ensures var st, s' := s.store, Apply(h, s, Acquire(c, true, found));
            match found
            case Some(id) =>
              && s'.calls[c].pc == Reconciled(id)
              && s'.store == Store(st.log[fid := LogRow(s.calls[c].msg, Some(id))], st.index[fid := id],
                                   st.intents - {fid}, st.live, st.ever)
            case None =>
              && s'.calls[c].pc == Owning(fid)
              && s'.store == WithIntents(st, st.intents[fid := Intent(s.calls[c].owner, lower)])
    ensures var s' := Apply(h, s, Acquire(c, true, found));
            && c !in s'.halted
            && (h.failStop ==> Holders(s, fid, s.store.intents[fid].owner) <= s'.halted)
  {
  }

  /** An owner whose failure stays un-indexed: the entry is added and indexed under its id, the intent goes, and the
      log gets the id. */
  lemma OwnerCompletes(h: Hypotheses, s: State, c: nat, fid: nat, id: Id)
    requires Active(s, c) && s.calls[c].pc == Owning(fid) && fid !in s.store.index
    requires fid in s.store.log && s.store.log[fid] == LogRow(s.calls[c].msg, None)
    requires FreshId(s.store, s.calls[c].msg.stream, id)
    ensures var st, e := s.store, Entry(s.calls[c].msg.stream, id, Failure(fid));
            Leads(h, s, [Xadd(c, id), CommitIndex(c, false), Finish(c)],
                Placed(s, c, Completed(id), Store(
                    st.log[fid := LogRow(s.calls[c].msg, Some(id))], st.index[fid := id], st.intents - {fid},
                    st.live + {e}, st.ever + {e})))
  {
    var st, msg := s.store, s.calls[c].msg;
    var e := Entry(msg.stream, id, Failure(fid));
    var s1 := Placed(s, c, Added(fid, id), Store(st.log, st.index, st.intents, st.live + {e}, st.ever + {e}));
    var s2 := Placed(s, c, Finishing(fid, id, true),
        Store(st.log, st.index[fid := id], st.intents - {fid}, st.live + {e}, st.ever + {e}));
    var s3 := Placed(s, c, Completed(id), Store(st.log[fid := LogRow(msg, Some(id))], st.index[fid := id],
        st.intents - {fid}, st.live + {e}, st.ever + {e}));
    LeadsFirst(h, s2, Finish(c), s3, [], s3);
    LeadsFirst(h, s1, CommitIndex(c, false), s2, [Finish(c)], s3);
    LeadsFirst(h, s, Xadd(c, id), s1, [CommitIndex(c, false), Finish(c)], s3);
  }

  /** A call whose index commit meets another id, or fails: it withdraws its entry, keeps the intent, and then records
      the indexed id or raises. */
  lemma LoserWithdraws(h: Hypotheses, s: State, c: nat, fid: nat, rid: Id, dbError: bool)
    requires Active(s, c) && s.calls[c].pc == Added(fid, rid) && (dbError || fid in s.store.index)
    ensures var st := s.store;
            Leads(h, s, [CommitIndex(c, dbError), Xdel(c, false), Recheck(c)],
                Placed(s, c, if fid in st.index then Finishing(fid, st.index[fid], false) else Raised,
                    Store(st.log, st.index, st.intents, st.live - {Entry(s.calls[c].msg.stream, rid, Failure(fid))},
                          st.ever)))
  {
    var st := s.store;
    var withdrawn := Store(st.log, st.index, st.intents,
        st.live - {Entry(s.calls[c].msg.stream, rid, Failure(fid))}, st.ever);
    var s1 := Placed(s, c, Undoing(fid, rid), st);
    var s2 := Placed(s, c, Rechecking(fid), withdrawn);
    var s3 := Placed(s, c, if fid in st.index then Finishing(fid, st.index[fid], false) else Raised, withdrawn);
    LeadsFirst(h, s2, Recheck(c), s3, [], s3);
    LeadsFirst(h, s1, Xdel(c, false), s2, [Recheck(c)], s3);
    LeadsFirst(h, s, CommitIndex(c, dbError), s1, [Xdel(c, false), Recheck(c)], s3);
  }

  /** A fresh message, start to end: one row, one entry, one index row, all with one id, and no intent left. */
  lemma FreshMessageIsRouted(h: Hypotheses, s: State, c: nat, fid: nat, lower: Id, id: Id)
    requires Begun(s, c) && RowOf(s, c, fid)
    requires fid !in s.store.log && fid !in s.store.index && fid !in s.store.intents
    requires CapturedBound(s.store, s.calls[c].msg.stream, lower) && FreshId(s.store, s.calls[c].msg.stream, id)
    ensures var st, e := s.store, Entry(s.calls[c].msg.stream, id, Failure(fid));
            Leads(h, s, RoutingEvents(c, fid, lower, id),
                Placed(s, c, Completed(id), Store(
                    st.log[fid := LogRow(s.calls[c].msg, Some(id))], st.index[fid := id], st.intents,
                    st.live + {e}, st.ever + {e})))
  {
    var st, msg := s.store, s.calls[c].msg;
    var e := Entry(msg.stream, id, Failure(fid));
    var st1 := WithIntents(WithRow(st, fid, msg, None), st.intents[fid := Intent(s.calls[c].owner, lower)]);
    var s1 := Placed(s, c, Owning(fid), st1);
    var s2 := Placed(s, c, Completed(id), Store(
        st.log[fid := LogRow(msg, Some(id))], st.index[fid := id], st.intents, st.live + {e}, st.ever + {e}));
    FreshMessageIsOwned(h, s, c, fid, lower);
    OwnerCompletes(h, s1, c, fid, id);
    assert Store(st1.log[fid := LogRow(msg, Some(id))], st1.index[fid := id], st1.intents - {fid}, st.live + {e},
        st.ever + {e}) == s2.store;
    PlacedTwice(s, c, Owning(fid), st1, Completed(id), s2.store);
    LeadsOn(h, s, AcquiringEvents(c, fid, lower), s1, [Xadd(c, id), CommitIndex(c, false), Finish(c)], s2);
  }

  /** And before it adds anything, the call has left an intent with the bound that it captured. */
  lemma FreshMessageIsOwned(h: Hypotheses, s: State, c: nat, fid: nat, lower: Id)
    requires Begun(s, c) && RowOf(s, c, fid)
    requires fid !in s.store.log && fid !in s.store.index && fid !in s.store.intents
    requires CapturedBound(s.store, s.calls[c].msg.stream, lower)
    ensures var st, call := s.store, s.calls[c];
            Leads(h, s, AcquiringEvents(c, fid, lower),
                Placed(s, c, Owning(fid), Store(st.log[fid := LogRow(call.msg, None)], st.index,
                    st.intents[fid := Intent(call.owner, lower)], st.live, st.ever)))
  {
    var st1 := WithRow(s.store, fid, s.calls[c].msg, None);
    var s1, s2 := Placed(s, c, Logged(fid), st1), Placed(s, c, Bounded(fid, lower), st1);
    var s3 := Placed(s, c, Owning(fid),
        WithIntents(st1, st1.intents[fid := Intent(s.calls[c].owner, lower)]));
    LogsItsRow(h, s, c, fid);
    UnindexedComesToAcquisition(h, s1, c, fid, lower);
    AcquiresOrGivesWay(h, s2, c, fid, lower);
    LeadsOn(h, s1, [Lookup(c), Capture(c, lower)], s2, [Acquire(c, false, None)], s3);
    LeadsOn(h, s, [Log(c, fid)], s1, [Lookup(c), Capture(c, lower)] + [Acquire(c, false, None)], s3);
  }

  function AcquiringEvents(c: nat, fid: nat, lower: Id): seq<Event> {
    [Log(c, fid)] + ([Lookup(c), Capture(c, lower)] + [Acquire(c, false, None)])
  }

  function RoutingEvents(c: nat, fid: nat, lower: Id, id: Id): seq<Event> {
    AcquiringEvents(c, fid, lower) + [Xadd(c, id), CommitIndex(c, false), Finish(c)]
  }

  // ---------------------------------------------------------------- every call can end

  predicate Succeeded(pc: Pc) {
    pc.Completed? || pc.Reconciled?
  }

  predicate Over(pc: Pc) {
    Succeeded(pc) || pc.Aborted? || pc.Raised? || pc.Crashed?
  }

  /** Not over, and not on the way to raising. */
  predicate Hopeful(st: Store, pc: Pc) {
    !Over(pc) && (pc.Undoing? || pc.Rechecking? ==> pc.fid in st.index)
  }

  /** How many steps a call has before it at most. */
  function Left(pc: Pc): nat {
    match pc
    case Started => 10
    case Logged(_) => 9
    case Missed(_) => 8
    case Bounded(_, _) => 7
    case Owning(_) => 6
    case Added(_, _) => 5
    case Undoing(_, _) => 4
    case Rechecking(_) => 3
    case Finishing(_, _, _) => 2
    case _ => 0
  }

  ghost predicate OwnEvents(evs: seq<Event>, c: nat) {
    forall ev :: ev in evs ==> OfCall(ev) && ev.call == c && !ev.Begin? && !ev.Crash?
  }

  /** Whatever state the others left, a call that may still move comes to an end by its own events alone, without a
      crash; and with success unless it is already withdrawing an entry for which there is no index row. */
  lemma {:induction false} CallCanEnd(h: Hypotheses, s: State, c: nat) returns (evs: seq<Event>, s': State)
    requires Active(s, c)
    ensures Leads(h, s, evs, s') && OwnEvents(evs, c)
    ensures c in s'.calls && Over(s'.calls[c].pc) && s'.calls[c].msg == s.calls[c].msg
    ensures Hopeful(s.store, s.calls[c].pc) ==> Succeeded(s'.calls[c].pc)
    decreases Left(s.calls[c].pc)
  {
    if Over(s.calls[c].pc) {
      evs, s' := [], s;
    } else {
      var ev := NextEvent(h, s, c);
      var s1, rest := Apply(h, s, ev), [];
      rest, s' := CallCanEnd(h, s1, c);
      evs := [ev] + rest;
      LeadsFirst(h, s, ev, s1, rest, s');
    }
  }

  lemma NextEvent(h: Hypotheses, s: State, c: nat) returns (ev: Event)
    requires Active(s, c) && !Over(s.calls[c].pc)
    ensures Enabled(h, s, ev) && OfCall(ev) && ev.call == c && !ev.Begin? && !ev.Crash?
    ensures var s' := Apply(h, s, ev);
            && Active(s', c) && Left(s'.calls[c].pc) < Left(s.calls[c].pc) && s'.calls[c].msg == s.calls[c].msg
            && (Hopeful(s.store, s.calls[c].pc) ==> Hopeful(s'.store, s'.calls[c].pc) || Succeeded(s'.calls[c].pc))
  {
    match s.calls[c].pc {
      case Started =>
        var fid := PickRow(s, c);
        ev := Log(c, fid);
      case Logged(_) => ev := Lookup(c);
      case Missed(_) => ev := Capture(c, ZERO);
      case Bounded(fid, _) =>
        var found := PickScanAnswer(s.store, fid);
        ev := Acquire(c, true, found);
      case Owning(_) =>
        var id := LaterThanAll(s.store.ever);
        ev := Xadd(c, id);
      case Added(_, _) => ev := CommitIndex(c, false);
      case Undoing(_, _) => ev := Xdel(c, false);
      case Rechecking(_) => ev := Recheck(c);
      case Finishing(_, _, _) => ev := Finish(c);
    }
    Advances(h, s, c, ev);
  }

  lemma Advances(h: Hypotheses, s: State, c: nat, ev: Event)
    requires Enabled(h, s, ev) && OfCall(ev) && ev.call == c && !ev.Begin? && !ev.Crash?
    requires (ev.Acquire? ==> ev.stale) && (ev.CommitIndex? ==> !ev.dbError)
    ensures var s' := Apply(h, s, ev);
            && Active(s, c) && Active(s', c)
            && Left(s'.calls[c].pc) < Left(s.calls[c].pc) && s'.calls[c].msg == s.calls[c].msg
            && (Hopeful(s.store, s.calls[c].pc) ==> Hopeful(s'.store, s'.calls[c].pc) || Succeeded(s'.calls[c].pc))
  {
  }

  lemma PickRow(s: State, c: nat) returns (fid: nat)
    requires c in s.calls
    ensures RowOf(s, c, fid)
  {
    if f :| f in s.store.log && s.store.log[f].msg == s.calls[c].msg {
      fid := f;
    } else {
      fid := UnusedNumber(s.store.log.Keys);
    }
  }

  lemma {:induction false} UnusedNumber(used: set<nat>) returns (n: nat)
    ensures n !in used && forall m :: m in used ==> m < n
  {
    n := 0;
    if m :| m in used {
      n := UnusedNumber(used - {m});
      assert forall k :: k in used ==> k == m || k in used - {m};
      n := if m < n then n else m + 1;
    }
  }

  lemma {:induction false} LaterThanAll(ever: set<Entry>) returns (id: Id)
    ensures Before(ZERO, id) && forall e :: e in ever ==> Before(e.id, id)
  {
    id := Id(1, 0);
    if e :| e in ever {
      id := LaterThanAll(ever - {e});
      assert forall o :: o in ever ==> o == e || o in ever - {e};
      id := Id(if e.id.ms < id.ms then id.ms + 1 else e.id.ms + 1, 0);
    }
  }

  /** The adopter's scan has an answer. */
  lemma PickScanAnswer(st: Store, fid: nat) returns (found: Option<Id>)
    ensures fid in st.log && fid in st.intents ==>
        ScanAnswer(st, st.log[fid].msg.stream, st.intents[fid].lower, fid, found)
  {
    found := None;
    if fid in st.log && fid in st.intents {
      var stream, lower := st.log[fid].msg.stream, st.intents[fid].lower;
      var matches := set e | e in st.live && e.stream == stream && e.tag == Failure(fid) && AtMost(lower, e.id);
      found := LeastId(matches);
      forall e | e in st.live && e.stream == stream && e.tag == Failure(fid)
          ensures e in matches || Before(e.id, lower) {
      }
    }
  }

  lemma {:induction false} LeastId(entries: set<Entry>) returns (least: Option<Id>)
    ensures least.None? <==> entries == {}
    ensures least.Some? ==> exists e :: e in entries && e.id == least.value
    ensures least.Some? ==> forall e :: e in entries ==> AtMost(least.value, e.id)
  {
    least := None;
    if e :| e in entries {
      least := LeastId(entries - {e});
      assert forall o :: o in entries ==> o == e || o in entries - {e};
      if least.None? || Before(e.id, least.value) {
        least := Some(e.id);
      }
    }
  }
}
