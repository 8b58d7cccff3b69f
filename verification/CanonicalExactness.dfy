/** The main statements about canonical entries, and why each hypothesis is needed. */
module CanonicalExactness {
  import opened Options
  import opened RedisIds
  import opened Deadletter
  import opened LogRows
  import opened Agreement
  import opened CanonicalEntry
  import opened Witnesses

  /** The event deletes no entry that an index row names. */
  ghost predicate Spares(h: Hypotheses, s: State, ev: Event)
    requires Enabled(h, s, ev)
  {
    forall f :: f in s.store.index && f in s.store.log ==>
      var e := Entry(s.store.log[f].msg.stream, s.store.index[f], Failure(f));
      e in s.store.live ==> e in Apply(h, s, ev).store.live
  }

  ghost predicate AlwaysSpares(h: Hypotheses) {
    forall run, ev :: ValidRun(h, run) && Enabled(h, Exec(h, run), ev) ==> Spares(h, Exec(h, run), ev)
  }

  ghost predicate AlwaysLive(h: Hypotheses) {
    forall run :: ValidRun(h, run) ==> CanonicalLive(Exec(h, run).store)
  }

  /** Once an index row names an entry, every later state of the run still has that entry. */
  lemma CanonicalNeverDeleted(h: Hypotheses, run: seq<Event>, n: nat, f: nat)
    requires h.failStop && h.quietPass4 && h.freshWalk && h.freshReads && ValidRun(h, run) && n <= |run|
    requires ValidRun(h, run[..n]) && f in Exec(h, run[..n]).store.index
    ensures var a, b := Exec(h, run[..n]).store, Exec(h, run).store;
            && f in b.index && b.index[f] == a.index[f]
            && f in b.log && Entry(b.log[f].msg.stream, a.index[f], Failure(f)) in b.live
  {
    RecordsAreWriteOnce(h, run, n);
    RunGuarded(h, run);
  }

  /** From a state where another worker has indexed call 0's entry, the conflict branch deletes it. */
  lemma ConflictDeletesCanonical(h: Hypotheses, run: seq<Event>)
    requires ValidRun(h, run)
    requires var s := Exec(h, run);
             && Active(s, 0) && s.calls[0] == ADDED.calls[0] && 7 in s.store.index && s.store.index[7] == Id(2, 0)
             && 7 in s.store.log && s.store.log[7].msg == MESSAGE && ENTRY in s.store.live
    ensures !AlwaysSpares(h) && !AlwaysLive(h)
  {
    var s := Exec(h, run);
    var longer := Step(h, run, CommitIndex(0, false), s.(calls := s.calls[0 := CallAt(Undoing(7, Id(2, 0)))]));
    UndoingDeletesCanonical(h, longer, 0, ENTRY);
  }

  /** A call that undoes the entry which the index names breaks both properties. */
  lemma UndoingDeletesCanonical(h: Hypotheses, run: seq<Event>, c: nat, e: Entry)
    requires ValidRun(h, run)
    requires var s := Exec(h, run);
             && Active(s, c) && s.calls[c] == CallAt(Undoing(7, e.id)) && 7 in s.store.index && s.store.index[7] == e.id
             && 7 in s.store.log && s.store.log[7].msg == MESSAGE && e in s.store.live
             && e == Entry(STREAM, e.id, Failure(7))
    ensures !AlwaysSpares(h) && !AlwaysLive(h)
  {
    var s := Exec(h, run);
    var s' := Apply(h, s, Xdel(c, false));
    assert e !in s'.store.live && s'.store.log == s.store.log && s'.store.index == s.store.index;
    assert !Spares(h, s, Xdel(c, false));
    var longer := Step(h, run, Xdel(c, false), s');
    assert !CanonicalLive(Exec(h, longer).store);
  }

  /** Without H2: pass 4 indexes the entry of a call in flight. */
  lemma LostWithoutQuietPass4(h: Hypotheses)
    requires !h.quietPass4
    ensures !AlwaysSpares(h) && !AlwaysLive(h)
  {
    var run := ReachAdded(h);
    run := Step(h, run, Pass4(ENTRY, false), Apply(h, ADDED, Pass4(ENTRY, false)));
    ConflictDeletesCanonical(h, run);
  }

  /** Without H1: pass 1 adopts the intent of a slow but live call and indexes its entry. */
  lemma LostWithoutFailStop(h: Hypotheses)
    requires !h.failStop
    ensures !AlwaysSpares(h) && !AlwaysLive(h)
  {
    var run := ReachAdded(h);
    run := Step(h, run, Pass1(0, 7, true, Some(Id(2, 0))), Apply(h, ADDED, Pass1(0, 7, true, Some(Id(2, 0)))));
    ConflictDeletesCanonical(h, run);
  }

  /** Without H4: pass 4 works off an old listing and indexes an entry that its writer has withdrawn. */
  lemma DanglingWithoutFreshWalk(h: Hypotheses)
    requires !h.freshWalk
    ensures !AlwaysLive(h)
  {
    var run := ReachWithdrawn(h);
    var s := Apply(h, WITHDRAWN, Pass4(ENTRY, false));
    run := Step(h, run, Pass4(ENTRY, false), s);
    assert 7 in s.store.index && s.store.live == {};
    assert !CanonicalLive(Exec(h, run).store);
  }

  /** Without H5: step 4 rolls back the named entry, and a re-drive then names one that its writer withdraws. */
  lemma LostWithoutFreshReads(h: Hypotheses)
    requires !h.freshReads
    ensures !AlwaysSpares(h) && !AlwaysLive(h)
  {
    var run := ReachReindexed(h);
    UndoingDeletesCanonical(h, run, 2, EARLY);
  }

  /** No XDEL hits a named entry, in any run, exactly under H1, H2 and H5. */
  lemma CanonicalSparedIffHypotheses(h: Hypotheses)
    ensures AlwaysSpares(h) <==> h.failStop && h.quietPass4 && h.freshReads
  {
    if h.failStop && h.quietPass4 && h.freshReads {
      forall run, ev | ValidRun(h, run) && Enabled(h, Exec(h, run), ev) ensures Spares(h, Exec(h, run), ev) {
        RunSpared(h, run);
        SpareStep(h, Exec(h, run), ev);
      }
    } else if !h.failStop {
      LostWithoutFailStop(h);
    } else if !h.quietPass4 {
      LostWithoutQuietPass4(h);
    } else {
      LostWithoutFreshReads(h);
    }
  }

  lemma SpareStep(h: Hypotheses, s: State, ev: Event)
    requires Sound(s) && Spared(s) && Enabled(h, s, ev)
    ensures Spares(h, s, ev)
  {
    forall f | f in s.store.index && f in s.store.log
      ensures var e := Entry(s.store.log[f].msg.stream, s.store.index[f], Failure(f));
              e in s.store.live ==> e in Apply(h, s, ev).store.live
    {
      var e := Entry(s.store.log[f].msg.stream, s.store.index[f], Failure(f));
      if e in s.store.live && e !in Apply(h, s, ev).store.live {
        DeletesOnlySpareEntries(h, s, ev, e);
      }
    }
  }

  /** Every index row names a live entry, in every run, exactly under H1, H2, H4 and H5. */
  lemma CanonicalLiveIffHypotheses(h: Hypotheses)
    ensures AlwaysLive(h) <==> h.failStop && h.quietPass4 && h.freshWalk && h.freshReads
  {
    if h.failStop && h.quietPass4 && h.freshWalk && h.freshReads {
      forall run | ValidRun(h, run) ensures CanonicalLive(Exec(h, run).store) {
        RunGuarded(h, run);
      }
    } else if !h.failStop {
      LostWithoutFailStop(h);
    } else if !h.quietPass4 {
      LostWithoutQuietPass4(h);
    } else if !h.freshWalk {
      DanglingWithoutFreshWalk(h);
    } else {
      LostWithoutFreshReads(h);
    }
  }
}
