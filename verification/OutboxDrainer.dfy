/** The outbox drainer: every live stream copy of an outbox event can be found through
    `event_id_to_redis`, whatever goes wrong with single rows or with a batch commit. */
module OutboxDrainer {
  import opened Options
  import opened RedisIds
  import opened StreamScan
  import opened Sorting

  datatype Event = Event(uuid: nat)

  datatype OutboxRow = OutboxRow(stream: StreamName, event: Event, created: int, published: Option<Id>, attempts: nat)

  /** One row of `event_id_to_redis`. */
  datatype IndexRow = IndexRow(event: Event, stream: StreamName, id: Id)

  type StreamLog = Stream<Option<Event>>

  const EMPTY_LOG: StreamLog := Stream([], ZERO)

  /** The auto-id of XADD at clock reading `ms`. */
  function NextId(last: Id, ms: nat): Id {
    if ms > last.ms then Id(ms, 0) else Increment(last)
  }

  /** XADD with `MAXLEN ~`: `trim` oldest entries go. */
  function Append(log: StreamLog, ms: nat, event: Option<Event>, trim: nat): StreamLog {
    var id := NextId(log.last, ms);
    var items := log.items + [Item(id, event)];
    Stream(items[if trim < |items| then trim else |items|..], id)
  }

  /** What another producer appends, and how many entries its XADD trims. */
  datatype Noise = Noise(ms: nat, event: Option<Event>, trim: nat)

  function AppendAll(log: StreamLog, noise: seq<Noise>): StreamLog
    decreases |noise|
  {
    if noise == [] then log else AppendAll(Append(log, noise[0].ms, noise[0].event, noise[0].trim), noise[1..])
  }

  /** How far the attempt on one row gets. */
  datatype RowFate = Published | XaddRefused | ReplyLost | IndexFails | MarkFails

  predicate Lands(fate: RowFate) {
    fate != XaddRefused
  }

  predicate Indexes(fate: RowFate) {
    fate.Published? || fate.MarkFails?
  }

  /** How far the recovery scan gets; each match is committed on its own, so a failure keeps what came before. */
  datatype Scan = Completes | FailsAfter(entries: nat)

  /** The world's choices while one row is drained. */
  datatype RowScript = RowScript(
    fate: RowFate,
    boundUnreadable: bool,
    ms: nat,
    trim: nat,
    before: seq<Noise>,
    after: seq<Noise>,
    scan: Scan)

  // ---------------------------------------------------------------- stream facts

  lemma NextIdIsFresh(last: Id, ms: nat)
    requires ValidId(last)
    ensures ValidId(NextId(last, ms)) && Before(last, NextId(last, ms))
  {
    IncrementIsSuccessor(last);
  }

  /** Appending adds one entry above everything and otherwise only forgets. */
  lemma AppendAddsOne(log: StreamLog, ms: nat, event: Option<Event>, trim: nat)
    requires WellFormed(log)
    ensures var log' := Append(log, ms, event, trim);
            && WellFormed(log') && Before(log.last, log'.last)
            && (forall it :: it in log'.items ==> it in log.items || it == Item(log'.last, event))
  {
    NextIdIsFresh(log.last, ms);
  }

  lemma {:induction false} AppendAllAddsNoise(log: StreamLog, noise: seq<Noise>)
    requires WellFormed(log)
    decreases |noise|
    ensures var log' := AppendAll(log, noise);
            && WellFormed(log') && AtMost(log.last, log'.last)
            && (forall it :: it in log'.items ==>
                it in log.items || (Before(log.last, it.id) && exists n :: n in noise && n.event == it.value))
  {
    if noise != [] {
      AppendAddsOne(log, noise[0].ms, noise[0].event, noise[0].trim);
      var log1 := Append(log, noise[0].ms, noise[0].event, noise[0].trim);
      AppendAllAddsNoise(log1, noise[1..]);
      forall it | it in AppendAll(log, noise).items && it !in log.items
        ensures Before(log.last, it.id) && exists n :: n in noise && n.event == it.value
      {
        if it in log1.items {
          assert noise[0] in noise && noise[0].event == it.value;
        } else {
          var n :| n in noise[1..] && n.event == it.value;
          assert n in noise;
        }
      }
    }
  }

  // ---------------------------------------------------------------- the tables

  function LogOf(streams: map<StreamName, StreamLog>, sn: StreamName): StreamLog {
    if sn in streams then streams[sn] else EMPTY_LOG
  }

  /** Some outbox row publishes this event to this stream. */
  ghost predicate Tracked(outbox: map<nat, OutboxRow>, sn: StreamName, event: Event) {
    exists oid :: oid in outbox && outbox[oid].stream == sn && outbox[oid].event == event
  }

  /** Other producers do not publish outbox events. */
  ghost predicate ForeignNoise(outbox: map<nat, OutboxRow>, sn: StreamName, noise: seq<Noise>) {
    forall n :: n in noise && n.event.Some? ==> !Tracked(outbox, sn, n.event.value)
  }

  ghost predicate StreamsSound(streams: map<StreamName, StreamLog>) {
    forall sn :: sn in streams ==> WellFormed(streams[sn])
  }

  /** Every live copy of an outbox event is indexed. */
  ghost predicate Covered(outbox: map<nat, OutboxRow>, index: set<IndexRow>, streams: map<StreamName, StreamLog>) {
    forall sn, it :: sn in streams && it in streams[sn].items && it.value.Some? && Tracked(outbox, sn, it.value.value)
                     ==> IndexRow(it.value.value, sn, it.id) in index
  }

  /** Every published row names an indexed id. */
  ghost predicate PublishedIndexed(outbox: map<nat, OutboxRow>, index: set<IndexRow>) {
    forall oid :: oid in outbox && outbox[oid].published.Some? ==>
      IndexRow(outbox[oid].event, outbox[oid].stream, outbox[oid].published.value) in index
  }

  /** No index row names an id that its stream has not generated yet. */
  ghost predicate IndexBounded(index: set<IndexRow>, streams: map<StreamName, StreamLog>) {
    forall r :: r in index ==> AtMost(r.id, LogOf(streams, r.stream).last)
  }

  /** The session's uncommitted view differs only in publication state. */
  ghost predicate SameEvents(a: map<nat, OutboxRow>, b: map<nat, OutboxRow>) {
    a.Keys == b.Keys && forall oid :: oid in a ==> a[oid].stream == b[oid].stream && a[oid].event == b[oid].event
  }

  /** The lower bound read before the XADD is at most the id that the XADD then gets. */
  function PriorBound(log: StreamLog, unreadable: bool): Id {
    if unreadable || log.items == [] then ZERO else Increment(log.items[|log.items| - 1].id)
  }

  lemma BoundReachesLaterIds(log: StreamLog, unreadable: bool, id: Id)
    requires WellFormed(log) && ValidId(id) && Before(log.last, id)
    ensures AtMost(PriorBound(log, unreadable), id)
  {
    if !unreadable && log.items != [] {
      IncrementIsSuccessor(log.items[|log.items| - 1].id);
    }
  }

  /** A bound that could be read leaves everything out that the stream already held. */
  lemma BoundSkipsOldEntries(log: StreamLog, it: Item<Option<Event>>)
    requires WellFormed(log) && it in log.items
    ensures Before(it.id, PriorBound(log, false))
  {
    var tail := log.items[|log.items| - 1];
    assert tail in log.items;
    IncrementIsSuccessor(tail.id);
  }

  /** The entries that the recovery scan gets to, from its lower bound on. */
  function Reached(log: StreamLog, lower: Id, scan: Scan): seq<Item<Option<Event>>> {
    var all := Range(log.items, lower, log.last);
    if scan.FailsAfter? && scan.entries < |all| then all[..scan.entries] else all
  }

  /** What the recovery scan adds to the index. */
  function Recovered(log: StreamLog, lower: Id, event: Event, sn: StreamName, scan: Scan): set<IndexRow> {
    set id | id in AllFrom(Reached(log, lower, scan), lower, v => v == Some(event)) :: IndexRow(event, sn, id)
  }

  /** A completed scan reaches everything from its bound on, a failed one a part of it. */
  lemma ReachedWithin(log: StreamLog, lower: Id, scan: Scan, it: Item<Option<Event>>)
    requires WellFormed(log)
    ensures it in Reached(log, lower, scan) ==> it in log.items && AtMost(lower, it.id)
    ensures scan.Completes? && it in log.items && AtMost(lower, it.id) ==> it in Reached(log, lower, scan)
  {
    RangeMember(log.items, lower, log.last, it);
    assert it in Reached(log, lower, scan) ==> it in Range(log.items, lower, log.last);
  }

  /** What a completed scan collects is the answer of one full scan of the stream, which is what the paged walk
      gives when nothing is deleted under it. */
  lemma CompletedScanIsFullScan(log: StreamLog, lower: Id, wanted: Option<Event> -> bool)
    requires WellFormed(log)
    ensures AllFrom(Reached(log, lower, Completes), lower, wanted) == AllFrom(log.items, lower, wanted)
  {
    var reached := Reached(log, lower, Completes);
    RangeAscends(log.items, lower, log.last);
    AllFromAscends(reached, lower, wanted);
    AllFromAscends(log.items, lower, wanted);
    forall id ensures id in AllFrom(reached, lower, wanted) <==> id in AllFrom(log.items, lower, wanted) {
      AllFromIsComplete(reached, lower, wanted, id);
      AllFromIsComplete(log.items, lower, wanted, id);
      forall it ensures it in reached && Sought(it, lower, wanted) <==> it in log.items && Sought(it, lower, wanted) {
        ReachedWithin(log, lower, Completes, it);
      }
    }
    SameIdsSameList(AllFrom(reached, lower, wanted), AllFrom(log.items, lower, wanted));
  }

  /** A row is recovered iff the scan reached an entry of the event with that id. */
  lemma RecoveredExactly(log: StreamLog, lower: Id, event: Event, sn: StreamName, scan: Scan, id: Id)
    requires WellFormed(log)
    ensures IndexRow(event, sn, id) in Recovered(log, lower, event, sn, scan) <==>
        Item(id, Some(event)) in Reached(log, lower, scan)
  {
    AllFromIsComplete(Reached(log, lower, scan), lower, v => v == Some(event), id);
    ReachedWithin(log, lower, scan, Item(id, Some(event)));
  }

  /** The copy that the row's XADD leaves in the stream. */
  function NewCopy(log: StreamLog, event: Event, script: RowScript): Item<Option<Event>> {
    Item(NextId(AppendAll(log, script.before).last, script.ms), Some(event))
  }

  /** One row's whole effect on its stream. */
  function DrainedLog(log: StreamLog, event: Event, script: RowScript): StreamLog {
    var before := AppendAll(log, script.before);
    var added := if Lands(script.fate) then Append(before, script.ms, Some(event), script.trim) else before;
    AppendAll(added, script.after)
  }

  /** After one row, an entry is old, or the row's own new copy within reach of the scan, or foreign. */
  lemma DrainedLogEntries(log: StreamLog, event: Event, script: RowScript, it: Item<Option<Event>>)
    requires WellFormed(log) && it in DrainedLog(log, event, script).items
    ensures WellFormed(DrainedLog(log, event, script))
    ensures || it in log.items
            || (exists n :: n in script.before + script.after && n.event == it.value)
            || (Lands(script.fate) && it.value == Some(event) && AtMost(PriorBound(log, script.boundUnreadable), it.id)
                && it == NewCopy(log, event, script))
  {
    var before := AppendAll(log, script.before);
    AppendAllAddsNoise(log, script.before);
    AppendAddsOne(before, script.ms, Some(event), script.trim);
    var added := if Lands(script.fate) then Append(before, script.ms, Some(event), script.trim) else before;
    AppendAllAddsNoise(added, script.after);
    if it !in added.items {
      var n :| n in script.after && n.event == it.value;
      assert n in script.before + script.after;
    } else if it !in before.items {
      BoundReachesLaterIds(log, script.boundUnreadable, it.id);
    } else if it !in log.items {
      var n :| n in script.before && n.event == it.value;
      assert n in script.before + script.after;
    }
  }

  lemma DrainedLogGrows(log: StreamLog, event: Event, script: RowScript)
    requires WellFormed(log)
    ensures var log' := DrainedLog(log, event, script);
            && WellFormed(log') && AtMost(log.last, log'.last)
            && (Lands(script.fate) ==>
                Before(log.last, NewCopy(log, event, script).id) && AtMost(NewCopy(log, event, script).id, log'.last))
  {
    var before := AppendAll(log, script.before);
    AppendAllAddsNoise(log, script.before);
    AppendAddsOne(before, script.ms, Some(event), script.trim);
    NextIdIsFresh(before.last, script.ms);
    var added := if Lands(script.fate) then Append(before, script.ms, Some(event), script.trim) else before;
    AppendAllAddsNoise(added, script.after);
  }

  // ---------------------------------------------------------------- what appending keeps

  /** The entry is in the stream, or was trimmed along with everything up to it. */
  ghost predicate HeldOrTrimmed(log: StreamLog, it: Item<Option<Event>>) {
    AtMost(it.id, log.last) && (it in log.items || forall o :: o in log.items ==> Before(it.id, o.id))
  }

  /** Ids only grow, and entries go only from the old end. */
  ghost predicate LogGrows(a: StreamLog, b: StreamLog) {
    AtMost(a.last, b.last) && forall it :: HeldOrTrimmed(a, it) ==> HeldOrTrimmed(b, it)
  }

  ghost predicate StreamsGrow(a: map<StreamName, StreamLog>, b: map<StreamName, StreamLog>) {
    forall sn :: LogGrows(LogOf(a, sn), LogOf(b, sn))
  }

  lemma AppendGrows(log: StreamLog, ms: nat, event: Option<Event>, trim: nat)
    requires WellFormed(log)
    ensures var log' := Append(log, ms, event, trim);
            LogGrows(log, log') && HeldOrTrimmed(log', Item(log'.last, event))
  {
    var log' := Append(log, ms, event, trim);
    var all := log.items + [Item(log'.last, event)];
    AppendAddsOne(log, ms, event, trim);
    forall it | it in all || HeldOrTrimmed(log, it) ensures HeldOrTrimmed(log', it) {
      if it in all {
        TrimCuts(all, trim, it);
      }
    }
  }

  lemma TrimCuts(items: seq<Item<Option<Event>>>, trim: nat, it: Item<Option<Event>>)
    requires Ascending(items) && it in items
    ensures var kept := items[if trim < |items| then trim else |items|..];
            it in kept || forall o :: o in kept ==> Before(it.id, o.id)
  {
    var i :| 0 <= i < |items| && items[i] == it;
    var cut := if trim < |items| then trim else |items|;
    if i >= cut {
      assert items[cut..][i - cut] == it;
    }
  }

  lemma {:induction false} AppendAllGrows(log: StreamLog, noise: seq<Noise>)
    requires WellFormed(log)
    decreases |noise|
    ensures WellFormed(AppendAll(log, noise)) && LogGrows(log, AppendAll(log, noise))
  {
    if noise != [] {
      AppendAddsOne(log, noise[0].ms, noise[0].event, noise[0].trim);
      AppendGrows(log, noise[0].ms, noise[0].event, noise[0].trim);
      AppendAllGrows(Append(log, noise[0].ms, noise[0].event, noise[0].trim), noise[1..]);
    }
  }

  /** One row only appends to its stream, and a copy that landed is there until it is trimmed. */
  lemma RowGrows(log: StreamLog, event: Event, script: RowScript)
    requires WellFormed(log)
    ensures var log' := DrainedLog(log, event, script);
            LogGrows(log, log') && (Lands(script.fate) ==> HeldOrTrimmed(log', NewCopy(log, event, script)))
  {
    var before := AppendAll(log, script.before);
    AppendAllGrows(log, script.before);
    AppendAddsOne(before, script.ms, Some(event), script.trim);
    AppendGrows(before, script.ms, Some(event), script.trim);
    var added := if Lands(script.fate) then Append(before, script.ms, Some(event), script.trim) else before;
    AppendAllGrows(added, script.after);
  }

  /** No XADD of the row or of another producer meanwhile trims anything. */
  predicate TrimsNothing(script: RowScript) {
    script.trim == 0 && forall n :: n in script.before + script.after ==> n.trim == 0
  }

  lemma {:induction false} AppendAllKeeps(log: StreamLog, noise: seq<Noise>, it: Item<Option<Event>>)
    requires it in log.items && forall n :: n in noise ==> n.trim == 0
    decreases |noise|
    ensures it in AppendAll(log, noise).items
  {
    if noise != [] {
      AppendAllKeeps(Append(log, noise[0].ms, noise[0].event, noise[0].trim), noise[1..], it);
    }
  }

  /** Without trimming, the stream keeps what it held, and holds the row's copy once its XADD has landed. */
  lemma UntrimmedCopyIsThere(log: StreamLog, event: Event, script: RowScript)
    requires WellFormed(log) && TrimsNothing(script)
    ensures forall it :: it in log.items ==> it in DrainedLog(log, event, script).items
    ensures script.fate != XaddRefused ==>
        exists it :: it in DrainedLog(log, event, script).items && it.value == Some(event) && Before(log.last, it.id)
  {
    var before := AppendAll(log, script.before);
    var copy := NewCopy(log, event, script);
    var added := if Lands(script.fate) then Append(before, script.ms, Some(event), script.trim) else before;
    assert forall n :: n in script.before || n in script.after ==> n in script.before + script.after;
    forall it | it in log.items ensures it in DrainedLog(log, event, script).items {
      AppendAllKeeps(log, script.before, it);
      AppendAllKeeps(added, script.after, it);
    }
    if Lands(script.fate) {
      AppendAllKeeps(added, script.after, copy);
      DrainedLogGrows(log, event, script);
    }
  }

  lemma NewCopyIsLater(log: StreamLog, event: Event, script: RowScript)
    requires WellFormed(log)
    ensures Before(log.last, NewCopy(log, event, script).id)
  {
    AppendAllGrows(log, script.before);
    NextIdIsFresh(AppendAll(log, script.before).last, script.ms);
  }

  /** The index after one row: its own copy if the independent insert ran, and what recovery found. */
  function IndexAfterRow(index: set<IndexRow>, log: StreamLog, sn: StreamName, event: Event,
                         script: RowScript): set<IndexRow> {
    var own := if Indexes(script.fate) then {IndexRow(event, sn, NewCopy(log, event, script).id)} else {};
    var recovered := if script.fate.Published? then {}
      else Recovered(DrainedLog(log, event, script), PriorBound(log, script.boundUnreadable), event, sn, script.scan);
    index + own + recovered
  }

  /** The row's copy is in the stream, was not indexed, and lies beyond what the recovery scan reached. */
  predicate Missed(log: StreamLog, event: Event, script: RowScript) {
    var log', copy := DrainedLog(log, event, script), NewCopy(log, event, script);
    && Lands(script.fate) && !Indexes(script.fate) && copy in log'.items
    && copy !in Reached(log', PriorBound(log, script.boundUnreadable), script.scan)
  }

  /** A completed scan misses nothing. */
  lemma CompletedScanMissesNothing(log: StreamLog, event: Event, script: RowScript)
    requires WellFormed(log) && script.scan.Completes?
    ensures !Missed(log, event, script)
  {
    var log', copy := DrainedLog(log, event, script), NewCopy(log, event, script);
    DrainedLogGrows(log, event, script);
    if Lands(script.fate) && copy in log'.items {
      BoundReachesLaterIds(log, script.boundUnreadable, copy.id);
      ReachedWithin(log', PriorBound(log, script.boundUnreadable), script.scan, copy);
    }
  }

  /** Once the independent insert has run, the copy is indexed whatever happens to the savepoint and the scan; before
      that, the index gains exactly the entries of the event that the scan reached. */
  lemma IndexByFate(index: set<IndexRow>, log: StreamLog, sn: StreamName, event: Event, script: RowScript, r: IndexRow)
    requires WellFormed(log)
    ensures script.fate == Published || script.fate == MarkFails ==>
        IndexRow(event, sn, NewCopy(log, event, script).id) in IndexAfterRow(index, log, sn, event, script)
    ensures script.fate != Published && script.fate != MarkFails ==>
        (r in IndexAfterRow(index, log, sn, event, script) <==>
          || r in index
          || (r.event == event && r.stream == sn && Item(r.id, Some(event)) in Reached(
              DrainedLog(log, event, script), PriorBound(log, script.boundUnreadable), script.scan)))
  {
    DrainedLogGrows(log, event, script);
    RecoveredExactly(DrainedLog(log, event, script), PriorBound(log, script.boundUnreadable), event, sn, script.scan,
        r.id);
  }

  /** Index rows of the row's own stream stay within what the stream has generated. */
  lemma RowKeepsBounded(outbox: map<nat, OutboxRow>, index: set<IndexRow>, streams: map<StreamName, StreamLog>,
                        oid: nat, script: RowScript)
    requires oid in outbox && StreamsSound(streams) && IndexBounded(index, streams)
    ensures var sn, event := outbox[oid].stream, outbox[oid].event;
            var log := LogOf(streams, sn);
            IndexBounded(IndexAfterRow(index, log, sn, event, script), streams[sn := DrainedLog(log, event, script)])
  {
    var sn, event := outbox[oid].stream, outbox[oid].event;
    var log := LogOf(streams, sn);
    DrainedLogGrows(log, event, script);
    forall r | r in IndexAfterRow(index, log, sn, event, script) && r !in index
      ensures r.stream == sn && AtMost(r.id, DrainedLog(log, event, script).last)
    {
      NewRowBounded(index, log, sn, event, script, r);
    }
  }

  lemma NewRowBounded(index: set<IndexRow>, log: StreamLog, sn: StreamName, event: Event, script: RowScript,
                      r: IndexRow)
    requires WellFormed(log) && r in IndexAfterRow(index, log, sn, event, script) && r !in index
    ensures r.stream == sn && AtMost(r.id, DrainedLog(log, event, script).last)
  {
    var log', lower := DrainedLog(log, event, script), PriorBound(log, script.boundUnreadable);
    DrainedLogGrows(log, event, script);
    if r in Recovered(log', lower, event, sn, script.scan) {
      RecoveredExactly(log', lower, event, sn, script.scan, r.id);
      ReachedWithin(log', lower, script.scan, Item(r.id, Some(event)));
    }
  }

  /** One row keeps the coverage, unless its copy was missed. */
  lemma RowKeepsCovered(outbox: map<nat, OutboxRow>, index: set<IndexRow>, streams: map<StreamName, StreamLog>,
                        oid: nat, script: RowScript)
    requires oid in outbox && StreamsSound(streams) && Covered(outbox, index, streams)
    requires ForeignNoise(outbox, outbox[oid].stream, script.before + script.after)
    ensures var sn := outbox[oid].stream;
            var log := LogOf(streams, sn);
            var streams' := streams[sn := DrainedLog(log, outbox[oid].event, script)];
            && StreamsSound(streams')
            && (!Missed(log, outbox[oid].event, script) ==>
                  Covered(outbox, IndexAfterRow(index, log, sn, outbox[oid].event, script), streams'))
  {
    var sn, event := outbox[oid].stream, outbox[oid].event;
    var log := LogOf(streams, sn);
    DrainedLogGrows(log, event, script);
    if !Missed(log, event, script) {
      forall it | it in DrainedLog(log, event, script).items && it.value.Some? && Tracked(outbox, sn, it.value.value)
        ensures IndexRow(it.value.value, sn, it.id) in IndexAfterRow(index, log, sn, event, script)
      {
        EntryIsIndexed(outbox, index, log, sn, event, script, it);
      }
    }
  }

  lemma EntryIsIndexed(outbox: map<nat, OutboxRow>, index: set<IndexRow>, log: StreamLog, sn: StreamName, event: Event,
                       script: RowScript, it: Item<Option<Event>>)
    requires WellFormed(log) && ForeignNoise(outbox, sn, script.before + script.after) && !Missed(log, event, script)
    requires it in DrainedLog(log, event, script).items && it.value.Some? && Tracked(outbox, sn, it.value.value)
    requires it in log.items ==> IndexRow(it.value.value, sn, it.id) in index
    ensures IndexRow(it.value.value, sn, it.id) in IndexAfterRow(index, log, sn, event, script)
  {
    DrainedLogEntries(log, event, script, it);
    if it !in log.items && !Indexes(script.fate) {
      DrainedLogGrows(log, event, script);
      RecoveredExactly(DrainedLog(log, event, script), PriorBound(log, script.boundUnreadable), event, sn,
          script.scan, it.id);
    }
  }

  /** A missed copy is in the stream and not in the index. */
  lemma MissedCopyIsUncovered(outbox: map<nat, OutboxRow>, index: set<IndexRow>, streams: map<StreamName, StreamLog>,
                              oid: nat, script: RowScript)
    requires oid in outbox && StreamsSound(streams) && IndexBounded(index, streams)
    requires Missed(LogOf(streams, outbox[oid].stream), outbox[oid].event, script)
    ensures var sn, event := outbox[oid].stream, outbox[oid].event;
            var log := LogOf(streams, sn);
            !Covered(outbox, IndexAfterRow(index, log, sn, event, script),
                streams[sn := DrainedLog(log, event, script)])
  {
    var sn, event := outbox[oid].stream, outbox[oid].event;
    var log := LogOf(streams, sn);
    var copy := NewCopy(log, event, script);
    DrainedLogGrows(log, event, script);
    RecoveredExactly(DrainedLog(log, event, script), PriorBound(log, script.boundUnreadable), event, sn, script.scan,
        copy.id);
    assert Tracked(outbox, sn, event);
    assert IndexRow(event, sn, copy.id) !in index;
    var streams' := streams[sn := DrainedLog(log, event, script)];
    assert sn in streams' && copy in streams'[sn].items && copy.value == Some(event);
  }

  /** Exactly when one row keeps the coverage: its copy never landed, was indexed, was trimmed at once, or lies
      among the entries that the recovery scan reached before it ended or failed. */
  lemma RowCoverageExact(outbox: map<nat, OutboxRow>, index: set<IndexRow>, streams: map<StreamName, StreamLog>,
                         oid: nat, script: RowScript)
    requires oid in outbox && StreamsSound(streams) && Covered(outbox, index, streams) && IndexBounded(index, streams)
    requires ForeignNoise(outbox, outbox[oid].stream, script.before + script.after)
    ensures var sn, event := outbox[oid].stream, outbox[oid].event;
            var log := LogOf(streams, sn);
            Covered(outbox, IndexAfterRow(index, log, sn, event, script),
                streams[sn := DrainedLog(log, event, script)]) <==>
            !Missed(log, event, script)
  {
    if Missed(LogOf(streams, outbox[oid].stream), outbox[oid].event, script) {
      MissedCopyIsUncovered(outbox, index, streams, oid, script);
    } else {
      RowKeepsCovered(outbox, index, streams, oid, script);
    }
  }

  /** A scan that fails at once misses a copy whose reply was lost; one that fails after the first entry keeps it. */
  lemma EarlyFailureMisses(event: Event)
    ensures var lost := RowScript(ReplyLost, false, 1, 0, [], [], FailsAfter(0));
            Missed(EMPTY_LOG, event, lost) && !Missed(EMPTY_LOG, event, lost.(scan := FailsAfter(1)))
  {
    var copy := Item(Id(1, 0), Some(event));
    assert DrainedLog(EMPTY_LOG, event, RowScript(ReplyLost, false, 1, 0, [], [], FailsAfter(0))).items == [copy];
    assert [copy][1..] == [] && Range([copy], ZERO, Id(1, 0)) == [copy];
  }

  ghost function NewlyPublished(a: map<nat, OutboxRow>, b: map<nat, OutboxRow>): set<nat> {
    set oid | oid in a && oid in b && a[oid].published.None? && b[oid].published.Some?
  }

  /** The session's view of a row after its turn: published under `id`, or one more attempt. */
  function ViewAfterRow(working: map<nat, OutboxRow>, oid: nat, published: Option<Id>): map<nat, OutboxRow>
    requires oid in working
  {
    working[oid := if published.Some? then working[oid].(published := published)
                   else working[oid].(attempts := working[oid].attempts + 1)]
  }

  lemma RowKeepsView(outbox: map<nat, OutboxRow>, working: map<nat, OutboxRow>, index: set<IndexRow>,
                     index': set<IndexRow>, oid: nat, published: Option<Id>)
    requires SameEvents(outbox, working) && oid in outbox && working[oid] == outbox[oid] && outbox[oid].published.None?
    requires PublishedIndexed(working, index) && index <= index'
    requires published.Some? ==> IndexRow(outbox[oid].event, outbox[oid].stream, published.value) in index'
    ensures var after := ViewAfterRow(working, oid, published);
            && SameEvents(outbox, after) && PublishedIndexed(after, index')
            && |NewlyPublished(outbox, after)| == |NewlyPublished(outbox, working)| + if published.Some? then 1 else 0
  {
    var after := ViewAfterRow(working, oid, published);
    assert NewlyPublished(outbox, after) == NewlyPublished(outbox, working) + if published.Some? then {oid} else {};
  }

  // ---------------------------------------------------------------- the drainer

  /** One batch: the rows that producers committed before it, the rows that no other session holds, what happens to
      each, and whether the commit succeeds. */
  datatype Batch = Batch(
    arrivals: map<nat, OutboxRow>,
    unlocked: seq<nat>,
    scripts: map<nat, RowScript>,
    commits: bool)

  const CALM := RowScript(Published, false, 0, 0, [], [], Completes)

  function ScriptOf(batch: Batch, oid: nat): RowScript {
    if oid in batch.scripts then batch.scripts[oid] else CALM
  }

  /** Everything a batch may meet: noise that is foreign to all rows there ever are, and recovery scans that
      complete. */
  ghost predicate Tolerable(ever: map<nat, OutboxRow>, batch: Batch) {
    forall oid :: oid in batch.scripts && oid in ever ==>
      && ForeignNoise(ever, ever[oid].stream, batch.scripts[oid].before + batch.scripts[oid].after)
      && batch.scripts[oid].scan.Completes?
  }

  /** The rows are among those there ever are. */
  ghost predicate Within(rows: map<nat, OutboxRow>, ever: map<nat, OutboxRow>) {
    forall oid :: oid in rows ==>
        oid in ever && ever[oid].stream == rows[oid].stream && ever[oid].event == rows[oid].event
  }

  /** New rows: unpublished, and none there yet. */
  ghost predicate Arrive(ever: map<nat, OutboxRow>, outbox: map<nat, OutboxRow>, rows: map<nat, OutboxRow>) {
    Within(rows, ever) && rows.Keys !! outbox.Keys && forall oid :: oid in rows ==> rows[oid].published.None?
  }

  /** Covering the copies of all events there ever are covers those of the rows at hand. */
  lemma CoveredWithin(outbox: map<nat, OutboxRow>, ever: map<nat, OutboxRow>, index: set<IndexRow>,
                      streams: map<StreamName, StreamLog>)
    requires Within(outbox, ever) && Covered(ever, index, streams)
    ensures Covered(outbox, index, streams)
  {
    forall sn, it | sn in streams && it in streams[sn].items && it.value.Some? && Tracked(outbox, sn, it.value.value)
      ensures IndexRow(it.value.value, sn, it.id) in index
    {
      var oid :| oid in outbox && outbox[oid].stream == sn && outbox[oid].event == it.value.value;
      assert oid in ever && ever[oid].stream == sn && ever[oid].event == it.value.value;
    }
  }

  predicate Pending(outbox: map<nat, OutboxRow>, oid: nat) {
    oid in outbox && outbox[oid].published.None?
  }

  /** `created_at` order; rows that are not there come first. */
  predicate Older(outbox: map<nat, OutboxRow>, a: nat, b: nat) {
    a !in outbox || (b in outbox && outbox[a].created <= outbox[b].created)
  }

  function ByAge(rows: map<nat, OutboxRow>): (nat, nat) -> bool {
    (a: nat, b: nat) => Older(rows, a, b)
  }

  ghost predicate AgeSorted(rows: map<nat, OutboxRow>, sorted: seq<nat>) {
    forall a, b :: 0 <= a < b < |sorted| ==> Older(rows, sorted[a], sorted[b])
  }

  lemma SortedByAge(rows: map<nat, OutboxRow>, unlocked: seq<nat>)
    ensures var sorted := SortBy<nat>(ByAge(rows), unlocked);
            && (forall oid :: oid in sorted <==> oid in unlocked)
            && AgeSorted(rows, sorted)
  {
    var leq := ByAge(rows);
    assert TotalOrder(leq);
    SortFacts(leq, unlocked);
    assert forall oid :: oid in unlocked <==> oid in multiset(unlocked);
    assert forall oid :: oid in SortBy<nat>(leq, unlocked) <==> oid in multiset(SortBy<nat>(leq, unlocked));
  }

  /** The pending ones among the first `i`, once each and in order. */
  ghost predicate Chosen(rows: map<nat, OutboxRow>, sorted: seq<nat>, i: nat, chosen: seq<nat>) {
    && i <= |sorted|
    && (forall oid :: oid in chosen <==> oid in sorted[..i] && Pending(rows, oid))
    && (forall a, b :: 0 <= a < b < |chosen| ==> chosen[a] != chosen[b] && Older(rows, chosen[a], chosen[b]))
  }

  lemma ChooseNext(rows: map<nat, OutboxRow>, sorted: seq<nat>, i: nat, chosen: seq<nat>)
    requires Chosen(rows, sorted, i, chosen) && i < |sorted|
    requires AgeSorted(rows, sorted)
    ensures Chosen(rows, sorted, i + 1, if Pending(rows, sorted[i]) && sorted[i] !in chosen then chosen + [sorted[i]]
        else chosen)
  {
    assert sorted[..i + 1] == sorted[..i] + [sorted[i]];
    forall a | 0 <= a < |chosen| ensures Older(rows, chosen[a], sorted[i]) {
      assert chosen[a] in chosen;
      var k :| 0 <= k < i && sorted[..i][k] == chosen[a];
    }
  }

  lemma ChoiceIsOldest(rows: map<nat, OutboxRow>, sorted: seq<nat>, i: nat, chosen: seq<nat>)
    requires Chosen(rows, sorted, i, chosen)
    requires AgeSorted(rows, sorted)
    ensures forall oid, c :: oid in sorted && Pending(rows, oid) && oid !in chosen && c in chosen ==>
        Older(rows, c, oid)
    ensures i == |sorted| ==> forall oid :: oid in sorted && Pending(rows, oid) ==> oid in chosen
  {
    assert sorted[..|sorted|] == sorted;
    forall oid, c | oid in sorted && Pending(rows, oid) && c in chosen ensures oid in chosen || Older(rows, c, oid) {
      var k :| 0 <= k < |sorted| && sorted[k] == oid;
      var l :| 0 <= l < i && sorted[..i][l] == c;
      if k < i {
        assert sorted[..i][k] == oid;
      }
    }
  }

  /** The batch so far: what is committed is covered, and the session's view names indexed ids only. */
  ghost predicate Midway(ever: map<nat, OutboxRow>, outbox: map<nat, OutboxRow>, index: set<IndexRow>,
                         streams: map<StreamName, StreamLog>, working: map<nat, OutboxRow>, drained: nat) {
    && StreamsSound(streams) && IndexBounded(index, streams) && Covered(ever, index, streams)
    && Within(outbox, ever) && SameEvents(outbox, working) && PublishedIndexed(working, index)
    && |NewlyPublished(outbox, working)| == drained
  }

  /** One turn keeps it. */
  lemma TurnKeepsMidway(ever: map<nat, OutboxRow>, outbox: map<nat, OutboxRow>, index: set<IndexRow>,
                        streams: map<StreamName, StreamLog>, working: map<nat, OutboxRow>, drained: nat, oid: nat,
                        script: RowScript)
    requires Midway(ever, outbox, index, streams, working, drained)
    requires Pending(outbox, oid) && oid in working && working[oid] == outbox[oid]
    requires ForeignNoise(ever, outbox[oid].stream, script.before + script.after) && script.scan.Completes?
    ensures var sn, event := outbox[oid].stream, outbox[oid].event;
            var log := LogOf(streams, sn);
            var published := if script.fate.Published? then Some(NewCopy(log, event, script).id) else None;
            Midway(ever, outbox, IndexAfterRow(index, log, sn, event, script),
                   streams[sn := DrainedLog(log, event, script)],
                   ViewAfterRow(working, oid, published), if published.Some? then drained + 1 else drained)
  {
    var sn, event := outbox[oid].stream, outbox[oid].event;
    var log := LogOf(streams, sn);
    RowKeepsCovered(ever, index, streams, oid, script);
    RowKeepsBounded(ever, index, streams, oid, script);
    CompletedScanMissesNothing(log, event, script);
    var published := if script.fate.Published? then Some(NewCopy(log, event, script).id) else None;
    RowKeepsView(outbox, working, index, IndexAfterRow(index, log, sn, event, script), oid, published);
  }

  // ---------------------------------------------------------------- what one batch does

  /** The rows tried so far are published or have one more attempt, as each one's fate has it; the others stay. */
  ghost predicate Tried(batch: Batch, outbox: map<nat, OutboxRow>, working: map<nat, OutboxRow>, done: set<nat>) {
    && outbox.Keys == working.Keys
    && forall oid :: oid in outbox ==>
         if oid !in done then working[oid] == outbox[oid]
         else if ScriptOf(batch, oid).fate == Published then
           working[oid].published.Some? && working[oid] == outbox[oid].(published := working[oid].published)
         else working[oid] == outbox[oid].(attempts := outbox[oid].attempts + 1)
  }

  /** The id is that of a copy of the event that was appended since `before`. */
  ghost predicate Appended(before: map<StreamName, StreamLog>, now: map<StreamName, StreamLog>, sn: StreamName,
                           event: Event, id: Id) {
    Before(LogOf(before, sn).last, id) && HeldOrTrimmed(LogOf(now, sn), Item(id, Some(event)))
  }

  /** Every row published since `outbox` names a copy of its event that was appended since `before`. */
  ghost predicate NamesCopies(outbox: map<nat, OutboxRow>, before: map<StreamName, StreamLog>,
                              now: map<StreamName, StreamLog>, working: map<nat, OutboxRow>) {
    forall oid :: oid in NewlyPublished(outbox, working) ==>
      Appended(before, now, outbox[oid].stream, outbox[oid].event, working[oid].published.value)
  }

  /** Rows of one stream are published in the order of their creation. */
  ghost predicate InCreationOrder(outbox: map<nat, OutboxRow>, working: map<nat, OutboxRow>) {
    forall a, b :: a in NewlyPublished(outbox, working) && b in NewlyPublished(outbox, working) ==>
      outbox[a].stream == outbox[b].stream && outbox[a].created < outbox[b].created ==>
      Before(working[a].published.value, working[b].published.value)
  }

  /** The index gains only entries that the stream held, of events whose rows were tried. */
  ghost predicate GainsEntries(outbox: map<nat, OutboxRow>, before: set<IndexRow>, now: set<IndexRow>,
                               streams: map<StreamName, StreamLog>, done: set<nat>) {
    && before <= now
    && forall r :: r in now && r !in before ==>
         && HeldOrTrimmed(LogOf(streams, r.stream), Item(r.id, Some(r.event)))
         && exists oid :: oid in done && oid in outbox && outbox[oid].stream == r.stream && outbox[oid].event == r.event
  }

  /** Everything that the tried rows have done. */
  ghost predicate Underway(batch: Batch, outbox: map<nat, OutboxRow>, index0: set<IndexRow>,
                           streams0: map<StreamName, StreamLog>, index: set<IndexRow>,
                           streams: map<StreamName, StreamLog>, working: map<nat, OutboxRow>, done: set<nat>) {
    && Tried(batch, outbox, working, done) && NamesCopies(outbox, streams0, streams, working)
    && InCreationOrder(outbox, working)
    && GainsEntries(outbox, index0, index, streams, done) && StreamsGrow(streams0, streams)
  }

  lemma RowGrowsStreams(streams: map<StreamName, StreamLog>, sn: StreamName, event: Event, script: RowScript)
    requires StreamsSound(streams)
    ensures StreamsGrow(streams, streams[sn := DrainedLog(LogOf(streams, sn), event, script)])
  {
    RowGrows(LogOf(streams, sn), event, script);
  }

  lemma StreamsGrowOn(a: map<StreamName, StreamLog>, b: map<StreamName, StreamLog>, c: map<StreamName, StreamLog>)
    requires StreamsGrow(a, b) && StreamsGrow(b, c)
    ensures StreamsGrow(a, c)
  {
    forall sn ensures LogGrows(LogOf(a, sn), LogOf(c, sn)) {
      assert LogGrows(LogOf(a, sn), LogOf(b, sn)) && LogGrows(LogOf(b, sn), LogOf(c, sn));
    }
  }

  lemma AppendedStays(before: map<StreamName, StreamLog>, a: map<StreamName, StreamLog>,
                      b: map<StreamName, StreamLog>, sn: StreamName, event: Event, id: Id)
    requires Appended(before, a, sn, event, id) && StreamsGrow(a, b)
    ensures Appended(before, b, sn, event, id)
  {
    assert LogGrows(LogOf(a, sn), LogOf(b, sn));
  }

  lemma TurnTries(batch: Batch, outbox: map<nat, OutboxRow>, working: map<nat, OutboxRow>, done: set<nat>, oid: nat,
                  id: Id)
    requires Tried(batch, outbox, working, done) && Pending(outbox, oid) && oid !in done
    ensures var published := if ScriptOf(batch, oid).fate.Published? then Some(id) else None;
            var after := ViewAfterRow(working, oid, published);
            && Tried(batch, outbox, after, done + {oid})
            && NewlyPublished(outbox, after)
                == NewlyPublished(outbox, working) + (if published.Some? then {oid} else {})
            && (published.Some? ==> after[oid].published == published)
            && (forall o :: o in outbox && o != oid ==> after[o] == working[o])
  {
  }

  lemma TurnNamesCopies(batch: Batch, outbox: map<nat, OutboxRow>, streams0: map<StreamName, StreamLog>,
                        streams: map<StreamName, StreamLog>, working: map<nat, OutboxRow>, done: set<nat>, oid: nat)
    requires StreamsSound(streams) && StreamsGrow(streams0, streams)
    requires Tried(batch, outbox, working, done) && NamesCopies(outbox, streams0, streams, working)
    requires Pending(outbox, oid) && oid !in done
    ensures var sn, event, script := outbox[oid].stream, outbox[oid].event, ScriptOf(batch, oid);
            var log := LogOf(streams, sn);
            NamesCopies(outbox, streams0, streams[sn := DrainedLog(log, event, script)],
              ViewAfterRow(working, oid, if script.fate.Published? then Some(NewCopy(log, event, script).id) else None))
  {
    var sn, event, script := outbox[oid].stream, outbox[oid].event, ScriptOf(batch, oid);
    var log := LogOf(streams, sn);
    var copy, streams' := NewCopy(log, event, script), streams[sn := DrainedLog(log, event, script)];
    var after := ViewAfterRow(working, oid, if script.fate.Published? then Some(copy.id) else None);
    TurnTries(batch, outbox, working, done, oid, copy.id);
    forall o | o in NewlyPublished(outbox, after)
      ensures Appended(streams0, streams', outbox[o].stream, outbox[o].event, after[o].published.value)
    {
      if o == oid {
        CopyIsAppended(streams0, streams, sn, event, script);
      } else {
        RowGrowsStreams(streams, sn, event, script);
        AppendedStays(streams0, streams, streams', outbox[o].stream, outbox[o].event, working[o].published.value);
      }
    }
  }

  lemma CopyIsAppended(streams0: map<StreamName, StreamLog>, streams: map<StreamName, StreamLog>, sn: StreamName,
                       event: Event, script: RowScript)
    requires StreamsSound(streams) && StreamsGrow(streams0, streams) && Lands(script.fate)
    ensures var log := LogOf(streams, sn);
            Appended(streams0, streams[sn := DrainedLog(log, event, script)], sn, event,
                     NewCopy(log, event, script).id)
  {
    var log := LogOf(streams, sn);
    assert LogGrows(LogOf(streams0, sn), log);
    RowGrows(log, event, script);
    DrainedLogGrows(log, event, script);
  }

  lemma TurnKeepsOrder(batch: Batch, outbox: map<nat, OutboxRow>, streams0: map<StreamName, StreamLog>,
                       streams: map<StreamName, StreamLog>, working: map<nat, OutboxRow>, done: set<nat>, oid: nat,
                       id: Id)
    requires Tried(batch, outbox, working, done) && NamesCopies(outbox, streams0, streams, working)
    requires InCreationOrder(outbox, working)
    requires Pending(outbox, oid) && oid !in done && forall d :: d in done ==> Older(outbox, d, oid)
    requires Before(LogOf(streams, outbox[oid].stream).last, id)
    ensures var published := if ScriptOf(batch, oid).fate.Published? then Some(id) else None;
            InCreationOrder(outbox, ViewAfterRow(working, oid, published))
  {
    forall a | a in NewlyPublished(outbox, working) && outbox[a].stream == outbox[oid].stream
      ensures Before(working[a].published.value, id) && outbox[a].created <= outbox[oid].created
    {
      assert Appended(streams0, streams, outbox[a].stream, outbox[a].event, working[a].published.value);
      assert a in done;
    }
    LastInOrder(outbox, working, oid, if ScriptOf(batch, oid).fate.Published? then Some(id) else None);
  }

  /** A row that is younger than all published ones, with a later id. */
  lemma LastInOrder(outbox: map<nat, OutboxRow>, working: map<nat, OutboxRow>, oid: nat, published: Option<Id>)
    requires InCreationOrder(outbox, working) && Pending(outbox, oid) && oid in working && working[oid] == outbox[oid]
    requires published.Some? ==> forall a ::
        a in NewlyPublished(outbox, working) && outbox[a].stream == outbox[oid].stream ==>
        Before(working[a].published.value, published.value) && outbox[a].created <= outbox[oid].created
    ensures InCreationOrder(outbox, ViewAfterRow(working, oid, published))
  {
    var after := ViewAfterRow(working, oid, published);
    assert forall a :: a in NewlyPublished(outbox, after) ==>
        a in NewlyPublished(outbox, working) || (a == oid && published.Some? && after[oid].published == published);
  }

  lemma TurnGains(batch: Batch, outbox: map<nat, OutboxRow>, index0: set<IndexRow>, index: set<IndexRow>,
                  streams: map<StreamName, StreamLog>, done: set<nat>, oid: nat)
    requires StreamsSound(streams) && GainsEntries(outbox, index0, index, streams, done) && oid in outbox
    ensures var sn, event, script := outbox[oid].stream, outbox[oid].event, ScriptOf(batch, oid);
            var log := LogOf(streams, sn);
            GainsEntries(outbox, index0, IndexAfterRow(index, log, sn, event, script),
              streams[sn := DrainedLog(log, event, script)], done + {oid})
  {
    var sn, event, script := outbox[oid].stream, outbox[oid].event, ScriptOf(batch, oid);
    var log := LogOf(streams, sn);
    var index', streams' := IndexAfterRow(index, log, sn, event, script), streams[sn := DrainedLog(log, event, script)];
    RowGrowsStreams(streams, sn, event, script);
    forall r | r in index' && r !in index0
      ensures HeldOrTrimmed(LogOf(streams', r.stream), Item(r.id, Some(r.event)))
      ensures exists o ::
          o in done + {oid} && o in outbox && outbox[o].stream == r.stream && outbox[o].event == r.event
    {
      if r in index {
        assert LogGrows(LogOf(streams, r.stream), LogOf(streams', r.stream));
      } else {
        NewRowIsEntry(index, log, sn, event, script, r);
        assert oid in done + {oid};
      }
    }
  }

  lemma NewRowIsEntry(index: set<IndexRow>, log: StreamLog, sn: StreamName, event: Event, script: RowScript,
                      r: IndexRow)
    requires WellFormed(log) && r in IndexAfterRow(index, log, sn, event, script) && r !in index
    ensures r.stream == sn && r.event == event
    ensures HeldOrTrimmed(DrainedLog(log, event, script), Item(r.id, Some(event)))
  {
    var log', lower := DrainedLog(log, event, script), PriorBound(log, script.boundUnreadable);
    DrainedLogGrows(log, event, script);
    RowGrows(log, event, script);
    if r in Recovered(log', lower, event, sn, script.scan) {
      RecoveredExactly(log', lower, event, sn, script.scan, r.id);
      ReachedWithin(log', lower, script.scan, Item(r.id, Some(event)));
    }
  }

  lemma TurnKeepsUnderway(batch: Batch, outbox: map<nat, OutboxRow>, index0: set<IndexRow>,
                          streams0: map<StreamName, StreamLog>, index: set<IndexRow>,
                          streams: map<StreamName, StreamLog>, working: map<nat, OutboxRow>, done: set<nat>, oid: nat)
    requires StreamsSound(streams) && Underway(batch, outbox, index0, streams0, index, streams, working, done)
    requires Pending(outbox, oid) && oid !in done && forall d :: d in done ==> Older(outbox, d, oid)
    ensures var sn, event, script := outbox[oid].stream, outbox[oid].event, ScriptOf(batch, oid);
            var log := LogOf(streams, sn);
            Underway(batch, outbox, index0, streams0, IndexAfterRow(index, log, sn, event, script),
              streams[sn := DrainedLog(log, event, script)],
              ViewAfterRow(working, oid, if script.fate.Published? then Some(NewCopy(log, event, script).id) else None),
              done + {oid})
  {
    var sn, event, script := outbox[oid].stream, outbox[oid].event, ScriptOf(batch, oid);
    var log := LogOf(streams, sn);
    TurnTries(batch, outbox, working, done, oid, NewCopy(log, event, script).id);
    TurnNamesCopies(batch, outbox, streams0, streams, working, done, oid);
    NewCopyIsLater(log, event, script);
    TurnKeepsOrder(batch, outbox, streams0, streams, working, done, oid, NewCopy(log, event, script).id);
    TurnGains(batch, outbox, index0, index, streams, done, oid);
    RowGrowsStreams(streams, sn, event, script);
    StreamsGrowOn(streams0, streams, streams[sn := DrainedLog(log, event, script)]);
  }

  /** The unlocked pending rows. */
  ghost function Available(outbox: map<nat, OutboxRow>, unlocked: seq<nat>): set<nat> {
    set oid | oid in unlocked && Pending(outbox, oid)
  }

  ghost function Members(s: seq<nat>): set<nat> {
    set x | x in s
  }

  lemma {:induction false} DistinctMembers(s: seq<nat>)
    requires forall i, j :: 0 <= i < j < |s| ==> s[i] != s[j]
    ensures |Members(s)| == |s|
    decreases |s|
  {
    if s != [] {
      var front, last := s[..|s| - 1], s[|s| - 1];
      assert s == front + [last];
      assert Members(s) == Members(front) + {last};
      DistinctMembers(front);
    }
  }

  /** What the next turn needs to know of its row. */
  lemma TurnIsReady(ever: map<nat, OutboxRow>, outbox: map<nat, OutboxRow>, batch: Batch, chosen: seq<nat>, i: nat)
    requires Within(outbox, ever) && Tolerable(ever, batch) && i < |chosen|
    requires forall oid :: oid in chosen ==> Pending(outbox, oid)
    requires forall a, b :: 0 <= a < b < |chosen| ==> chosen[a] != chosen[b] && Older(outbox, chosen[a], chosen[b])
    ensures Members(chosen[..i + 1]) == Members(chosen[..i]) + {chosen[i]}
    ensures Pending(outbox, chosen[i]) && chosen[i] !in Members(chosen[..i])
    ensures forall d :: d in Members(chosen[..i]) ==> Older(outbox, d, chosen[i])
    ensures var script := ScriptOf(batch, chosen[i]);
            script.scan.Completes? && ForeignNoise(ever, outbox[chosen[i]].stream, script.before + script.after)
  {
    assert chosen[i] in chosen;
    assert chosen[..i + 1] == chosen[..i] + [chosen[i]];
  }

  /** The oldest of them, as many as the limit allows. */
  ghost predicate Takes(outbox: map<nat, OutboxRow>, unlocked: seq<nat>, limit: nat, taken: set<nat>) {
    var all := Available(outbox, unlocked);
    && taken <= all && |taken| == (if limit < |all| then limit else |all|)
    && forall oid, t :: oid in all && oid !in taken && t in taken ==> Older(outbox, t, oid)
  }

  lemma TakenCount(outbox: map<nat, OutboxRow>, unlocked: seq<nat>, limit: nat, chosen: seq<nat>)
    requires forall i, j :: 0 <= i < j < |chosen| ==> chosen[i] != chosen[j]
    requires |chosen| <= limit && forall oid :: oid in chosen ==> oid in unlocked && Pending(outbox, oid)
    requires forall oid :: oid in unlocked && Pending(outbox, oid) && oid !in chosen ==>
        |chosen| == limit && forall c :: c in chosen ==> Older(outbox, c, oid)
    ensures Takes(outbox, unlocked, limit, Members(chosen)) && |Members(chosen)| == |chosen|
  {
    DistinctMembers(chosen);
    var all := Available(outbox, unlocked);
    assert Members(chosen) <= all;
    CardinalityMonotone(Members(chosen), all);
    if |chosen| < limit {
      assert Members(chosen) == all;
    }
  }

  lemma {:induction false} CardinalityMonotone(a: set<nat>, b: set<nat>)
    requires a <= b
    ensures |a| <= |b|
  {
    assert b == a + (b - a);
  }

  lemma TriedKeeps(batch: Batch, outbox: map<nat, OutboxRow>, working: map<nat, OutboxRow>, done: set<nat>)
    requires Tried(batch, outbox, working, done) && forall oid :: oid in done ==> Pending(outbox, oid)
    ensures RowsKept(outbox, working) && outbox.Keys == working.Keys
  {
  }

  /** As many published as were tried with that fate. */
  lemma PublishedCount(batch: Batch, outbox: map<nat, OutboxRow>, working: map<nat, OutboxRow>, done: set<nat>)
    requires Tried(batch, outbox, working, done) && forall oid :: oid in done ==> Pending(outbox, oid)
    ensures NewlyPublished(outbox, working) == set oid | oid in done && ScriptOf(batch, oid).fate == Published
  {
  }

  class Drainer {
    var outbox: map<nat, OutboxRow>
    var index: set<IndexRow>
    var streams: map<StreamName, StreamLog>

    /** Every row that the outbox ever holds, now or later. */
    ghost const ever: map<nat, OutboxRow>

    ghost predicate Valid()
      reads this
    {
      && Within(outbox, ever) && StreamsSound(streams) && IndexBounded(index, streams)
      && Covered(ever, index, streams) && PublishedIndexed(outbox, index)
    }

    constructor (rows: map<nat, OutboxRow>, ghost ever: map<nat, OutboxRow>)
      requires Arrive(ever, map[], rows)
      ensures Valid() && outbox == rows && this.ever == ever
    {
      outbox, index, streams := rows, {}, map[];
      this.ever := ever;
    }

    /** Producers commit new rows. */
    method Commit(rows: map<nat, OutboxRow>)
      requires Valid() && Arrive(ever, outbox, rows)
      modifies this`outbox
      ensures Valid() && outbox == old(outbox) + rows
    {
      outbox := outbox + rows;
    }

    /** `SELECT ... WHERE published_at IS NULL ORDER BY created_at LIMIT n FOR UPDATE SKIP LOCKED`; `unlocked` are the
        rows that no other session holds. */
    method SelectPending(unlocked: seq<nat>, limit: nat) returns (chosen: seq<nat>)
      ensures |chosen| <= limit
      ensures forall oid :: oid in chosen ==> oid in unlocked && Pending(outbox, oid)
      ensures forall i, j :: 0 <= i < j < |chosen| ==> chosen[i] != chosen[j] && Older(outbox, chosen[i], chosen[j])
      ensures forall oid :: oid in unlocked && Pending(outbox, oid) && oid !in chosen ==>
                |chosen| == limit && forall c :: c in chosen ==> Older(outbox, c, oid)
    {
      var rows := outbox;
      var sorted: seq<nat> := SortBy<nat>(ByAge(rows), unlocked);
      SortedByAge(rows, unlocked);
      chosen := [];
      var i := 0;
      while i < |sorted| && |chosen| < limit
        invariant Chosen(rows, sorted, i, chosen) && |chosen| <= limit
      {
        ChooseNext(rows, sorted, i, chosen);
        if Pending(rows, sorted[i]) && sorted[i] !in chosen {
          chosen := chosen + [sorted[i]];
        }
        i := i + 1;
      }
      ChoiceIsOldest(rows, sorted, i, chosen);
    }

    /** The body of the row loop; `working` is the session's uncommitted view of the outbox. */
    method DrainRow(oid: nat, script: RowScript, working: map<nat, OutboxRow>)
      returns (after: map<nat, OutboxRow>)
      requires oid in outbox && SameEvents(outbox, working)
      modifies this`index, this`streams
      ensures var sn, event := outbox[oid].stream, outbox[oid].event;
              var log := LogOf(old(streams), sn);
              && streams == old(streams)[sn := DrainedLog(log, event, script)]
              && index == IndexAfterRow(old(index), log, sn, event, script)
              && after == ViewAfterRow(working, oid, if script.fate.Published?
                  then Some(NewCopy(log, event, script).id) else None)
    {
      var sn, event := outbox[oid].stream, outbox[oid].event;
      var log := LogOf(streams, sn);
      var lower := PriorBound(log, script.boundUnreadable);
      log := AppendAll(log, script.before);
      var id := NextId(log.last, script.ms);
      if Lands(script.fate) {
        log := Append(log, script.ms, Some(event), script.trim);
      }
      if Indexes(script.fate) {
        index := index + {IndexRow(event, sn, id)};
      }
      log := AppendAll(log, script.after);
      streams := streams[sn := log];
      if script.fate.Published? {
        after := working[oid := working[oid].(published := Some(id))];
      } else {
        index := index + Recovered(log, lower, event, sn, script.scan);
        after := working[oid := working[oid].(attempts := working[oid].attempts + 1)];
      }
    }

    /** One turn of the row loop. */
    method TakeTurn(batch: Batch, oid: nat, working: map<nat, OutboxRow>, drained: nat, ghost index0: set<IndexRow>,
                    ghost streams0: map<StreamName, StreamLog>, ghost done: set<nat>)
      returns (after: map<nat, OutboxRow>, drained': nat)
      requires Midway(ever, outbox, index, streams, working, drained)
      requires Underway(batch, outbox, index0, streams0, index, streams, working, done)
      requires Pending(outbox, oid) && oid !in done && forall d :: d in done ==> Older(outbox, d, oid)
      requires ForeignNoise(ever, outbox[oid].stream, ScriptOf(batch, oid).before + ScriptOf(batch, oid).after)
      requires ScriptOf(batch, oid).scan.Completes?
      modifies this`index, this`streams
      ensures Midway(ever, outbox, index, streams, after, drained')
      ensures Underway(batch, outbox, index0, streams0, index, streams, after, done + {oid})
      ensures drained' == if ScriptOf(batch, oid).fate.Published? then drained + 1 else drained
    {
      var script := ScriptOf(batch, oid);
      TurnKeepsMidway(ever, outbox, index, streams, working, drained, oid, script);
      TurnKeepsUnderway(batch, outbox, index0, streams0, index, streams, working, done, oid);
      after := DrainRow(oid, script, working);
      drained' := if script.fate.Published? then drained + 1 else drained;
    }

    /** The row loop: every chosen row gets its turn, whatever happens to the others. */
    method DrainRows(batch: Batch, chosen: seq<nat>)
      returns (working: map<nat, OutboxRow>, drained: nat, failures: nat)
      requires Valid() && Tolerable(ever, batch)
      requires forall oid :: oid in chosen ==> Pending(outbox, oid)
      requires forall i, j :: 0 <= i < j < |chosen| ==> chosen[i] != chosen[j] && Older(outbox, chosen[i], chosen[j])
      modifies this`index, this`streams
      ensures drained + failures == |chosen|
      ensures Midway(ever, outbox, index, streams, working, drained)
      ensures Underway(batch, outbox, old(index), old(streams), index, streams, working, Members(chosen))
    {
      working, drained, failures := outbox, 0, 0;
      var i := 0;
      while i < |chosen|
        invariant i <= |chosen| && drained + failures == i
        invariant Midway(ever, outbox, index, streams, working, drained)
        invariant Underway(batch, outbox, old(index), old(streams), index, streams, working, Members(chosen[..i]))
      {
        TurnIsReady(ever, outbox, batch, chosen, i);
        working, drained := TakeTurn(batch, chosen[i], working, drained, old(index), old(streams),
            Members(chosen[..i]));
        if !ScriptOf(batch, chosen[i]).fate.Published? {
          failures := failures + 1;
        }
        i := i + 1;
      }
      assert chosen[..i] == chosen;
    }

    /** `_drain_one_batch` and the commit that follows it; `taken` are the rows that the batch tries. */
    method DrainBatch(batch: Batch, limit: nat) returns (drained: nat, failures: nat, ghost taken: set<nat>)
      requires Valid() && Tolerable(ever, batch)
      modifies this
      ensures Valid()
      // the batch takes the oldest unlocked pending rows, as many as the limit allows, and tries them all
      ensures Takes(old(outbox), batch.unlocked, limit, taken)
      ensures drained + failures == |taken|
      ensures drained == |set oid | oid in taken && ScriptOf(batch, oid).fate == Published|
      // the rows, if the batch commits: published or with one more attempt, and the others as they were
      ensures Tried(batch, old(outbox), outbox, if batch.commits then taken else {})
      ensures NamesCopies(old(outbox), old(streams), streams, outbox) && InCreationOrder(old(outbox), outbox)
      ensures if batch.commits then drained == |NewlyPublished(old(outbox), outbox)| else outbox == old(outbox)
      // the stream and the index, committed or not
      ensures StreamsGrow(old(streams), streams)
      ensures GainsEntries(old(outbox), old(index), index, streams, taken)
    {
      var chosen := SelectPending(batch.unlocked, limit);
      taken := Members(chosen);
      TakenCount(outbox, batch.unlocked, limit, chosen);
      var working;
      working, drained, failures := DrainRows(batch, chosen);
      PublishedCount(batch, outbox, working, taken);
      if batch.commits {
        outbox := working;
      }
    }

    /** Producers commit rows, then a batch runs. */
    method CommitAndDrain(batch: Batch, limit: nat)
      requires Valid() && Tolerable(ever, batch) && Arrive(ever, outbox, batch.arrivals)
      modifies this
      ensures Valid() && old(index) <= index && RowsKept(old(outbox), outbox)
      ensures outbox.Keys == old(outbox).Keys + batch.arrivals.Keys
    {
      Commit(batch.arrivals);
      ghost var outbox1 := outbox;
      var _, _, taken := DrainBatch(batch, limit);
      TriedKeeps(batch, outbox1, outbox, if batch.commits then taken else {});
    }

    /** Any sequence of batches, with any rows committed by producers before each. */
    method DrainAll(batches: seq<Batch>, limit: nat)
      requires Valid() && forall i :: 0 <= i < |batches| ==> Tolerable(ever, batches[i])
      requires forall i :: 0 <= i < |batches| ==> Arrive(ever, outbox, batches[i].arrivals)
      requires forall i, j :: 0 <= i < j < |batches| ==> batches[i].arrivals.Keys !! batches[j].arrivals.Keys
      modifies this
      ensures Valid() && Covered(outbox, index, streams) && old(index) <= index
      ensures RowsKept(old(outbox), outbox)
      ensures forall i :: 0 <= i < |batches| ==> batches[i].arrivals.Keys <= outbox.Keys
    {
      var i := 0;
      while i < |batches|
        invariant i <= |batches| && Valid() && old(index) <= index && RowsKept(old(outbox), outbox)
        invariant forall j :: 0 <= j < i ==> batches[j].arrivals.Keys <= outbox.Keys
        invariant forall j :: i <= j < |batches| ==> batches[j].arrivals.Keys !! outbox.Keys
      {
        CommitAndDrain(batches[i], limit);
        i := i + 1;
      }
      CoveredWithin(outbox, ever, index, streams);
    }
  }

  /** No row goes or changes its event, and a published one does not change at all. */
  ghost predicate RowsKept(a: map<nat, OutboxRow>, b: map<nat, OutboxRow>) {
    forall oid :: oid in a ==>
      && oid in b && b[oid].stream == a[oid].stream && b[oid].event == a[oid].event
      && (a[oid].published.Some? ==> b[oid] == a[oid])
  }
}
