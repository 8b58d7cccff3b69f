/** Concrete runs of the routing protocol: what goes wrong when a hypothesis is dropped. */
module Witnesses {
  import opened Options
  import opened RedisIds
  import opened Deadletter

  const STREAM := StreamName("events")
  const MESSAGE := Msg(STREAM, GroupName("workers"), Id(1, 0))
  const EARLY := Entry(STREAM, Id(1, 0), Failure(7))
  const ENTRY := Entry(STREAM, Id(2, 0), Failure(7))
  const SECOND := Entry(STREAM, Id(3, 0), Failure(7))

  const UNROUTED: map<nat, LogRow> := map[7 := LogRow(MESSAGE, None)]
  const INTENT: map<nat, Intent> := map[7 := Intent(Consumer(0), ZERO)]

  function CallAt(pc: Pc): Call {
    Call(Consumer(0), MESSAGE, pc)
  }

  // ---------------------------------------------------------------- one call

  /** Call 0 owns the intent of failure 7 and has not added anything. */
  const OWNING := State(Store(UNROUTED, map[], INTENT, {}, {}), map[0 := CallAt(Owning(7))], {}, {})

  /** Call 0 has added its entry for failure 7 and not yet committed the index row. */
  const ADDED := State(Store(UNROUTED, map[], INTENT, {ENTRY}, {ENTRY}), map[0 := CallAt(Added(7, Id(2, 0)))], {}, {})

  /** Call 0 failed to commit its index row, withdrew its entry and raised. */
  const WITHDRAWN := State(Store(UNROUTED, map[], INTENT, {}, {ENTRY}), map[0 := CallAt(Raised)], {}, {})

  lemma Step(h: Hypotheses, run: seq<Event>, ev: Event, s: State) returns (longer: seq<Event>)
    requires ValidRun(h, run) && Enabled(h, Exec(h, run), ev) && Apply(h, Exec(h, run), ev) == s
    ensures ValidRun(h, longer) && Exec(h, longer) == s
  {
    Extend(h, run, ev);
    longer := run + [ev];
  }

  lemma ReachLogged(h: Hypotheses) returns (run: seq<Event>)
    ensures ValidRun(h, run)
    ensures Exec(h, run) == State(Store(UNROUTED, map[], map[], {}, {}), map[0 := CallAt(Logged(7))], {}, {})
  {
    run := [];
    run := Step(h, run, Begin(0, Consumer(0), MESSAGE),
        State(Store(map[], map[], map[], {}, {}), map[0 := CallAt(Started)], {}, {}));
    run := Step(h, run, Log(0, 7), State(Store(UNROUTED, map[], map[], {}, {}), map[0 := CallAt(Logged(7))], {}, {}));
  }

  lemma ReachOwning(h: Hypotheses) returns (run: seq<Event>)
    ensures ValidRun(h, run) && Exec(h, run) == OWNING
  {
    run := ReachLogged(h);
    var st := Store(UNROUTED, map[], map[], {}, {});
    run := Step(h, run, Lookup(0), State(st, map[0 := CallAt(Missed(7))], {}, {}));
    run := Step(h, run, Capture(0, ZERO), State(st, map[0 := CallAt(Bounded(7, ZERO))], {}, {}));
    run := Step(h, run, Acquire(0, false, None), OWNING);
  }

  lemma ReachAdded(h: Hypotheses) returns (run: seq<Event>)
    ensures ValidRun(h, run) && Exec(h, run) == ADDED
  {
    run := ReachOwning(h);
    run := Step(h, run, Xadd(0, Id(2, 0)), ADDED);
  }

  lemma ReachWithdrawn(h: Hypotheses) returns (run: seq<Event>)
    ensures ValidRun(h, run) && Exec(h, run) == WITHDRAWN
  {
    run := ReachAdded(h);
    run := Step(h, run, CommitIndex(0, true), ADDED.(calls := map[0 := CallAt(Undoing(7, Id(2, 0)))]));
    run := Step(h, run, Xdel(0, false), WITHDRAWN.(calls := map[0 := CallAt(Rechecking(7))]));
    run := Step(h, run, Recheck(0), WITHDRAWN);
  }

  // ---------------------------------------------------------------- a late write of the janitor

  /** Call 2 has an early entry in flight, call 0 crashed after its XADD, and call 1 of the same owner holds the
      intent again. */
  const RETRIED := State(
    Store(UNROUTED, map[], INTENT, {EARLY, ENTRY}, {EARLY, ENTRY}),
    map[0 := CallAt(Crashed), 1 := CallAt(Owning(7)), 2 := CallAt(Added(7, Id(1, 0)))], {}, {})

  /** Call 1 has committed the index row that pass 4 did not see when it read the index for `ENTRY`. */
  const OVERTAKEN := State(
    Store(UNROUTED, map[7 := Id(3, 0)], map[], {EARLY, ENTRY, SECOND}, {EARLY, ENTRY, SECOND}),
    map[0 := CallAt(Crashed), 1 := CallAt(Finishing(7, Id(3, 0), true)), 2 := CallAt(Added(7, Id(1, 0)))], {},
        {OfEntry(ENTRY)})

  /** Pass 4 has written: the log names one entry and the index another. */
  const MISMATCHED := OVERTAKEN.(store := OVERTAKEN.store.(log := map[7 := LogRow(MESSAGE, Some(Id(2, 0)))]))

  /** Step 4 of call 1 has rolled back: its index row and its entry are gone. */
  const ROLLED_BACK := State(
    Store(map[7 := LogRow(MESSAGE, Some(Id(2, 0)))], map[], map[], {EARLY, ENTRY}, {EARLY, ENTRY, SECOND}),
    map[0 := CallAt(Crashed), 1 := CallAt(Completed(Id(2, 0))), 2 := CallAt(Added(7, Id(1, 0)))], {}, {OfEntry(ENTRY)})

  /** A re-drive has indexed the early entry, which call 2 is about to withdraw. */
  const REINDEXED := ROLLED_BACK.(
    store := ROLLED_BACK.store.(index := map[7 := Id(1, 0)]),
    calls := ROLLED_BACK.calls[2 := CallAt(Undoing(7, Id(1, 0)))])

  lemma JoinMisses(h: Hypotheses, run: seq<Event>, c: nat) returns (longer: seq<Event>)
    requires ValidRun(h, run)
    requires var s := Exec(h, run); c !in s.calls && c !in s.halted && s.store.log == UNROUTED && s.store.index == map[]
    ensures ValidRun(h, longer)
    ensures Exec(h, longer) == Exec(h, run).(calls := Exec(h, run).calls[c := CallAt(Missed(7))])
  {
    var s := Exec(h, run);
    longer := Step(h, run, Begin(c, Consumer(0), MESSAGE), s.(calls := s.calls[c := CallAt(Started)]));
    longer := Step(h, longer, Log(c, 7), s.(calls := s.calls[c := CallAt(Logged(7))]));
    longer := Step(h, longer, Lookup(c), s.(calls := s.calls[c := CallAt(Missed(7))]));
  }

  /** A second call of the owner comes to hold the intent while nothing is indexed. */
  lemma JoinOwner(h: Hypotheses, run: seq<Event>, c: nat) returns (longer: seq<Event>)
    requires ValidRun(h, run)
    requires var s := Exec(h, run);
             && c !in s.calls && c !in s.halted && s.store.log == UNROUTED
             && s.store.index == map[] && s.store.intents == INTENT
    ensures ValidRun(h, longer)
    ensures Exec(h, longer) == Exec(h, run).(calls := Exec(h, run).calls[c := CallAt(Owning(7))])
  {
    var s := Exec(h, run);
    longer := JoinMisses(h, run, c);
    longer := Step(h, longer, Capture(c, ZERO), s.(calls := s.calls[c := CallAt(Bounded(7, ZERO))]));
    longer := Step(h, longer, Acquire(c, false, None), s.(calls := s.calls[c := CallAt(Owning(7))]));
  }

  /** Call 2 has added its entry, call 0 only owns the intent. */
  const JOINED := State(
    Store(UNROUTED, map[], INTENT, {EARLY}, {EARLY}),
    map[0 := CallAt(Owning(7)), 2 := CallAt(Added(7, Id(1, 0)))], {}, {})

  lemma ReachJoined(h: Hypotheses) returns (run: seq<Event>)
    ensures ValidRun(h, run) && Exec(h, run) == JOINED
  {
    run := ReachOwning(h);
    run := JoinOwner(h, run, 2);
    run := Step(h, run, Xadd(2, Id(1, 0)), JOINED);
  }

  /** Both entries are in the stream and call 0 crashed. */
  const CRASHED := State(
    Store(UNROUTED, map[], INTENT, {EARLY, ENTRY}, {EARLY, ENTRY}),
    map[0 := CallAt(Crashed), 2 := CallAt(Added(7, Id(1, 0)))], {}, {})

  lemma ReachCrashed(h: Hypotheses) returns (run: seq<Event>)
    ensures ValidRun(h, run) && Exec(h, run) == CRASHED
  {
    run := ReachBothAdded(h);
    run := Step(h, run, Crash(0), CRASHED);
  }

  const BOTH_ADDED := CRASHED.(calls := map[0 := CallAt(Added(7, Id(2, 0))), 2 := CallAt(Added(7, Id(1, 0)))])

  lemma ReachBothAdded(h: Hypotheses) returns (run: seq<Event>)
    ensures ValidRun(h, run) && Exec(h, run) == BOTH_ADDED
  {
    run := ReachJoined(h);
    assert forall e :: e in JOINED.store.ever ==> e == EARLY;
    run := Step(h, run, Xadd(0, Id(2, 0)), BOTH_ADDED);
  }

  lemma ReachRetried(h: Hypotheses) returns (run: seq<Event>)
    ensures ValidRun(h, run) && Exec(h, run) == RETRIED
  {
    run := ReachCrashed(h);
    run := JoinOwner(h, run, 1);
    assert CRASHED.calls[1 := CallAt(Owning(7))] == RETRIED.calls;
  }

  lemma ReachOvertaken(h: Hypotheses) returns (run: seq<Event>)
    ensures ValidRun(h, run) && Exec(h, run) == OVERTAKEN
  {
    run := ReachSecondAdded(h);
    run := Step(h, run, Miss(OfEntry(ENTRY)), SECOND_ADDED.(misses := {OfEntry(ENTRY)}));
    run := Step(h, run, CommitIndex(1, false), OVERTAKEN);
  }

  /** Call 1 has added a second entry. */
  const SECOND_ADDED := State(
    Store(UNROUTED, map[], INTENT, {EARLY, ENTRY, SECOND}, {EARLY, ENTRY, SECOND}),
    RETRIED.calls[1 := CallAt(Added(7, Id(3, 0)))], {}, {})

  lemma ReachSecondAdded(h: Hypotheses) returns (run: seq<Event>)
    ensures ValidRun(h, run) && Exec(h, run) == SECOND_ADDED
  {
    run := ReachRetried(h);
    run := Step(h, run, Xadd(1, Id(3, 0)), SECOND_ADDED);
  }

  lemma ReachMismatched(h: Hypotheses) returns (run: seq<Event>)
    requires !h.freshReads
    ensures ValidRun(h, run) && Exec(h, run) == MISMATCHED
  {
    run := ReachOvertaken(h);
    run := Step(h, run, Pass4(ENTRY, true), MISMATCHED);
  }

  lemma ReachRolledBack(h: Hypotheses) returns (run: seq<Event>)
    requires !h.freshReads
    ensures ValidRun(h, run) && Exec(h, run) == ROLLED_BACK
  {
    run := ReachMismatched(h);
    run := Step(h, run, Finish(1), ROLLED_BACK);
  }

  lemma ReachReindexed(h: Hypotheses) returns (run: seq<Event>)
    requires !h.freshReads
    ensures ValidRun(h, run) && Exec(h, run) == REINDEXED
  {
    run := ReachRolledBack(h);
    var ev := Pass2(0, 7, ZERO, false, None, Some(Id(1, 0)), Id(4, 0), Commits, false);
    var s1 := ROLLED_BACK.(store := REINDEXED.store);
    run := Step(h, run, ev, s1);
    run := Step(h, run, CommitIndex(2, false), REINDEXED);
  }
}
