/** Log and index agree in every run exactly when the janitor's index reads still hold when it writes. */
module AgreementExactness {
  import opened Options
  import opened RedisIds
  import opened Deadletter
  import opened LogRows
  import opened Agreement
  import opened Witnesses

  ghost predicate AlwaysAgrees(h: Hypotheses) {
    forall run :: ValidRun(h, run) ==> LogMatchesIndex(Exec(h, run).store)
  }

  /** Step 4 takes its lost-race branch: it deletes its own index row and its own entry. */
  predicate RollsBackStep4(s: State, c: nat) {
    && c in s.calls && s.calls[c].pc.Finishing? && s.calls[c].pc.ours
    && s.calls[c].pc.fid in s.store.log && s.store.log[s.calls[c].pc.fid].rid.Some?
    && s.store.log[s.calls[c].pc.fid].rid.value != s.calls[c].pc.rid
  }

  ghost predicate NeverRollsBack(h: Hypotheses) {
    forall run, c :: ValidRun(h, run) ==> !RollsBackStep4(Exec(h, run), c)
  }

  /** Index rows, once committed, stay. */
  ghost predicate IndexIsWriteOnce(h: Hypotheses) {
    forall run, ev, f :: (ValidRun(h, run) && Enabled(h, Exec(h, run), ev) && f in Exec(h, run).store.index) ==>
      f in Apply(h, Exec(h, run), ev).store.index
  }

  /** Without H5: an index row committed between pass 4's read and its write leaves log and index naming two
      entries, and the committer's step 4 then deletes its row and its entry. */
  lemma DisagreesWithoutFreshReads(h: Hypotheses)
    requires !h.freshReads
    ensures !AlwaysAgrees(h) && !NeverRollsBack(h) && !IndexIsWriteOnce(h)
  {
    var run := ReachMismatched(h);
    assert 7 in MISMATCHED.store.log && MISMATCHED.store.log[7].rid == Some(Id(2, 0))
      && MISMATCHED.store.index[7] == Id(3, 0);
    assert !LogMatchesIndex(MISMATCHED.store);
    assert RollsBackStep4(Exec(h, run), 1);
    var s := Exec(h, run);
    assert Enabled(h, s, Finish(1)) && 7 in s.store.index;
    assert 7 !in Apply(h, s, Finish(1)).store.index;
  }

  /** The agreement, the dead rollback branch and the write-once index all hold exactly under H5. */
  lemma AgreesIffFreshReads(h: Hypotheses)
    ensures AlwaysAgrees(h) <==> h.freshReads
    ensures NeverRollsBack(h) <==> h.freshReads
    ensures IndexIsWriteOnce(h) <==> h.freshReads
  {
    if h.freshReads {
      forall run | ValidRun(h, run) ensures LogMatchesIndex(Exec(h, run).store) {
        RunSound(h, run);
      }
      forall run, c | ValidRun(h, run) ensures !RollsBackStep4(Exec(h, run), c) {
        RunSound(h, run);
        if c in Exec(h, run).calls && Exec(h, run).calls[c].pc.Finishing? {
          FinishNeverRollsBack(Exec(h, run), c);
        }
      }
      forall run, ev, f | ValidRun(h, run) && Enabled(h, Exec(h, run), ev) && f in Exec(h, run).store.index
        ensures f in Apply(h, Exec(h, run), ev).store.index
      {
        RunSound(h, run);
        StepSound(h, Exec(h, run), ev);
      }
    } else {
      DisagreesWithoutFreshReads(h);
    }
  }
}
