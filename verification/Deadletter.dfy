/** The dead-letter routing protocol as a state machine.

    Every database transaction is one event and every Redis command is one event, so a crash or
    any other worker may come between any two of them.  An event carries all the choices that the
    outside world makes (ids handed out by Redis, whether a heartbeat is stale, what a scan saw),
    so a run is a sequence of events and `Apply` is a function. */
module Deadletter {
  import opened Options
  import opened RedisIds

  datatype GroupName = GroupName(text: string)

  /** The unique key of `deadletter_log`: one delivered message of one consumer group. */
  datatype Msg = Msg(stream: StreamName, group: GroupName, id: Id)

  /** The `failure_id` field of a dead-letter entry, as the readers parse it. */
  datatype Tag = Untagged | Garbled | Failure(fid: nat)

  /** One entry of `<stream>.deadletter`. */
  datatype Entry = Entry(stream: StreamName, id: Id, tag: Tag)

  /** `redis_message_id` and `routed_at_redis` are always set together, hence one option. */
  datatype LogRow = LogRow(msg: Msg, rid: Option<Id>)

  datatype Owner = Consumer(n: nat) | Janitor(n: nat)

  datatype Intent = Intent(owner: Owner, lower: Id)

  /** The three tables and the dead-letter streams.  `ever` is history: every entry XADDed so far. */
  datatype Store = Store(
    log: map<nat, LogRow>,
    index: map<nat, Id>,
    intents: map<nat, Intent>,
    live: set<Entry>,
    ever: set<Entry>)

  /** Where one `route_to_deadletter` call stands between two of its steps. */
  datatype Pc =
    | Started
    | Logged(fid: nat)
    | Missed(fid: nat)
    | Bounded(fid: nat, lower: Id)
    | Owning(fid: nat)
    | Added(fid: nat, rid: Id)
    | Undoing(fid: nat, rid: Id)
    | Rechecking(fid: nat)
    | Finishing(fid: nat, rid: Id, ours: bool)
    | Completed(rid: Id)
    | Reconciled(rid: Id)
    | Aborted
    | Raised
    | Crashed

  datatype Call = Call(owner: Owner, msg: Msg, pc: Pc)

  /** An index read of the janitor that found no row: pass 4 for a listed entry, or a re-drive of pass 2. */
  datatype IndexMiss = OfEntry(entry: Entry) | OfRow(fid: nat)

  /** `halted` are the calls that the fail-stop hypothesis forbids to move again; `misses` are the janitor's
      index reads that found nothing, which a later write may still rest on. */
  datatype State = State(store: Store, calls: map<nat, Call>, halted: set<nat>, misses: set<IndexMiss>)

  /** The hypotheses.  `failStop` (H1): a call whose intent is adopted as stale takes no further
      step.  `quietPass4` (H2): pass 4 leaves an entry alone while its writer is between its XADD and
      its index commit.  `wholePass2` (H3): no pass-2 transaction rolls back after its XADD landed.
      `freshWalk` (H4): an entry that pass 4 indexes is still in the stream.  `freshReads` (H5): no index row
      is committed between the janitor's index read and the write that rests on it. */
  datatype Hypotheses = Hypotheses(failStop: bool, quietPass4: bool, wholePass2: bool, freshWalk: bool,
                                   freshReads: bool)

  /** How a pass-2 transaction ends: committed, or rolled back after its XADD had landed. */
  datatype Fate = Commits | RollsBack

  datatype Event =
    | Begin(call: nat, owner: Owner, msg: Msg)
    | Log(call: nat, fid: nat)
    | Lookup(call: nat)
    | Capture(call: nat, lower: Id)
    | Acquire(call: nat, stale: bool, found: Option<Id>)
    | Xadd(call: nat, id: Id)
    | CommitIndex(call: nat, dbError: bool)
    | Xdel(call: nat, redisError: bool)
    | Recheck(call: nat)
    | Finish(call: nat)
    | Crash(call: nat)
    | Pass1(janitor: nat, fid: nat, stale: bool, found: Option<Id>)
    | Pass2(janitor: nat, fid: nat, lower: Id, stale: bool, found: Option<Id>, orphan: Option<Id>, id: Id, fate: Fate,
            late: bool)
    | Pass4(entry: Entry, late: bool)
    | Miss(miss: IndexMiss)
    | Foreign(entry: Entry)

  // ---------------------------------------------------------------- Redis

  /** XADD hands out an id greater than every id the stream has ever held. */
  ghost predicate FreshId(st: Store, stream: StreamName, id: Id) {
    Before(ZERO, id) && forall e :: e in st.ever && e.stream == stream ==> Before(e.id, id)
  }

  /** XINFO's last entry, or 0-0 for an empty stream or a Redis error. */
  ghost predicate CapturedBound(st: Store, stream: StreamName, lower: Id) {
    || lower == ZERO
    || exists e :: e in st.live && e.stream == stream && e.id == lower
                   && forall o :: o in st.live && o.stream == stream ==> AtMost(o.id, lower)
  }

  /** What the paged scan answers: the first live entry at or above the bound carrying `fid`. */
  ghost predicate ScanAnswer(st: Store, stream: StreamName, lower: Id, fid: nat, found: Option<Id>) {
    match found
    case None =>
      forall e :: e in st.live && e.stream == stream && e.tag == Failure(fid) ==> Before(e.id, lower)
    case Some(id) =>
      && Entry(stream, id, Failure(fid)) in st.live
      && AtMost(lower, id)
      && forall e :: e in st.live && e.stream == stream && e.tag == Failure(fid) && AtMost(lower, e.id)
                     ==> AtMost(id, e.id)
  }

  function AddEntry(st: Store, e: Entry): Store {
    st.(live := st.live + {e}, ever := st.ever + {e})
  }

  function DropEntry(st: Store, e: Entry): Store {
    st.(live := st.live - {e})
  }

  // ---------------------------------------------------------------- SQL statements

  /** `UPDATE deadletter_log SET redis_message_id = :rid ... WHERE routed_at_redis IS NULL`. */
  function MarkRouted(st: Store, fid: nat, rid: Id): Store {
    if fid in st.log && st.log[fid].rid.None?
    then st.(log := st.log[fid := st.log[fid].(rid := Some(rid))])
    else st
  }

  /** `INSERT INTO deadletter_redis_index ... ON CONFLICT DO NOTHING`. */
  function IndexIfAbsent(st: Store, fid: nat, rid: Id): Store {
    if fid in st.index then st else st.(index := st.index[fid := rid])
  }

  function DropIntent(st: Store, fid: nat): Store {
    st.(intents := st.intents - {fid})
  }

  // ---------------------------------------------------------------- acquire_or_adopt_intent

  datatype Outcome = Own | ReconciledByUs | Abort

  /** Branch 2c: another worker's intent with a stale heartbeat. */
  predicate Adopts(st: Store, fid: nat, owner: Owner, stale: bool) {
    fid in st.intents && st.intents[fid].owner != owner && stale
  }

  function AcquireOutcome(st: Store, fid: nat, owner: Owner, stale: bool, found: Option<Id>): Outcome {
    if fid !in st.intents || st.intents[fid].owner == owner then Own
    else if !stale then Abort
    else if found.Some? then ReconciledByUs
    else Own
  }

  function AcquireStore(st: Store, fid: nat, owner: Owner, lower: Id, stale: bool, found: Option<Id>): Store {
    if fid !in st.intents then st.(intents := st.intents[fid := Intent(owner, lower)])
    else if st.intents[fid].owner == owner || !stale then st
    else if found.Some? then
      var indexed := IndexIfAbsent(st, fid, found.value);
      DropIntent(MarkRouted(indexed, fid, indexed.index[fid]), fid)
    else st.(intents := st.intents[fid := Intent(owner, lower)])
  }

  /** An adopter scans from the previous owner's bound before it rewrites anything. */
  ghost predicate AdoptionScan(st: Store, fid: nat, owner: Owner, stale: bool, found: Option<Id>) {
    Adopts(st, fid, owner, stale) && fid in st.log ==>
      ScanAnswer(st, st.log[fid].msg.stream, st.intents[fid].lower, fid, found)
  }

  // ---------------------------------------------------------------- janitor transactions

  /** Pass 1 deletes the intent that it owns after acquisition. */
  function Pass1Store(st: Store, fid: nat, owner: Owner, stale: bool, found: Option<Id>): Store {
    var acquired := AcquireStore(st, fid, owner, ZERO, stale, found);
    if AcquireOutcome(st, fid, owner, stale, found) == Own then DropIntent(acquired, fid) else acquired
  }

  /** `_resolve_canonical_orphan`: the index row, else an entry found anywhere in the stream. */
  function Canonical(st: Store, fid: nat, orphan: Option<Id>): Option<Id> {
    if fid in st.index then Some(st.index[fid]) else orphan
  }

  /** `_finish_routing_after_adoption` once the canonical id is resolved; `id` is what an XADD would return. */
  function SettleStore(st: Store, fid: nat, canonical: Option<Id>, id: Id): Store
    requires fid in st.log
  {
    var added := if canonical.None? then AddEntry(st, Entry(st.log[fid].msg.stream, id, Failure(fid))) else st;
    var rid := if canonical.None? then id else canonical.value;
    DropIntent(MarkRouted(IndexIfAbsent(added, fid, rid), fid, rid), fid)
  }

  /** The re-drive whose index read still holds. */
  function RedriveStore(st: Store, fid: nat, orphan: Option<Id>, id: Id): Store
    requires fid in st.log
  {
    SettleStore(st, fid, Canonical(st, fid, orphan), id)
  }

  function Pass2Store(st: Store, fid: nat, owner: Owner, lower: Id, stale: bool, found: Option<Id>, orphan: Option<Id>,
                      id: Id): Store
    requires fid in st.log
  {
    var acquired := AcquireStore(st, fid, owner, lower, stale, found);
    if AcquireOutcome(st, fid, owner, stale, found) == Own
    then RedriveStore(acquired, fid, orphan, id) else acquired
  }

  /** `_reconcile_pass4_entry` for an entry that carries a failure id. */
  function Pass4Store(st: Store, e: Entry): Store
    requires e.tag.Failure?
  {
    var fid := e.tag.fid;
    if fid in st.index then
      if st.index[fid] == e.id then st else DropEntry(st, e)
    else if fid !in st.log then DropEntry(st, e)
    else Pass4Write(st, e)
  }

  /** Its write when the index read found nothing: the log gets the entry's id whatever the insert did. */
  function Pass4Write(st: Store, e: Entry): Store
    requires e.tag.Failure?
  {
    MarkRouted(IndexIfAbsent(st, e.tag.fid, e.id), e.tag.fid, e.id)
  }

  // ---------------------------------------------------------------- the transition system

  const INIT: State := State(Store(map[], map[], map[], {}, {}), map[], {}, {})

  predicate Active(s: State, c: nat) {
    c in s.calls && c !in s.halted
  }

  /** The call owns the intent of `fid` and has not yet committed or undone its entry. */
  predicate Holds(pc: Pc, fid: nat) {
    (pc.Owning? || pc.Added? || pc.Undoing?) && pc.fid == fid
  }

  /** The call's entry is in the stream but its own index commit is still to come. */
  predicate Unsettled(pc: Pc) {
    pc.Added? || pc.Undoing?
  }

  ghost function Holders(s: State, fid: nat, owner: Owner): set<nat> {
    set c | c in s.calls && s.calls[c].owner == owner && Holds(s.calls[c].pc, fid)
  }

  /** H1: adoption by `owner` stops the calls that held the adopted intent. */
  ghost function HaltedBy(h: Hypotheses, s: State, fid: nat, owner: Owner, stale: bool): set<nat> {
    if h.failStop && Adopts(s.store, fid, owner, stale)
    then s.halted + Holders(s, fid, s.store.intents[fid].owner)
    else s.halted
  }

  ghost predicate Enabled(h: Hypotheses, s: State, ev: Event) {
    var st := s.store;
    match ev
    case Begin(c, owner, msg) => c !in s.calls && owner.Consumer?
    case Log(c, fid) =>
      && Active(s, c) && s.calls[c].pc.Started?
      && if fid in st.log then st.log[fid].msg == s.calls[c].msg
         else forall f :: f in st.log ==> st.log[f].msg != s.calls[c].msg
    case Lookup(c) => Active(s, c) && s.calls[c].pc.Logged?
    case Capture(c, lower) =>
      Active(s, c) && s.calls[c].pc.Missed? && CapturedBound(st, s.calls[c].msg.stream, lower)
    case Acquire(c, stale, found) =>
      && Active(s, c) && s.calls[c].pc.Bounded?
      && AdoptionScan(st, s.calls[c].pc.fid, s.calls[c].owner, stale, found)
    case Xadd(c, id) => Active(s, c) && s.calls[c].pc.Owning? && FreshId(st, s.calls[c].msg.stream, id)
    case CommitIndex(c, dbError) => Active(s, c) && s.calls[c].pc.Added?
    case Xdel(c, redisError) => Active(s, c) && s.calls[c].pc.Undoing?
    case Recheck(c) => Active(s, c) && s.calls[c].pc.Rechecking?
    case Finish(c) => Active(s, c) && s.calls[c].pc.Finishing?
    case Crash(c) => c in s.calls
    case Pass1(j, fid, stale, found) =>
      fid in st.log && AdoptionScan(st, fid, Janitor(j), stale, found)
    case Pass2(j, fid, lower, stale, found, orphan, id, fate, late) =>
      && fid in st.log
      && CapturedBound(st, st.log[fid].msg.stream, lower)
      && AdoptionScan(st, fid, Janitor(j), stale, found)
      && ScanAnswer(st, st.log[fid].msg.stream, ZERO, fid, orphan)
      && FreshId(st, st.log[fid].msg.stream, id)
      && (fate.RollsBack? ==>
            !h.wholePass2 && AcquireOutcome(st, fid, Janitor(j), stale, found) == Own
              && Canonical(st, fid, orphan).None?)
      && (late ==>
            && !h.freshReads && OfRow(fid) in s.misses && fate.Commits?
            && AcquireOutcome(st, fid, Janitor(j), stale, found) == Own)
    case Pass4(e, late) =>  // listed by an earlier XREVRANGE
      && e in st.ever && e.tag.Failure? && (h.freshWalk ==> e in st.live)
      && (late ==> !h.freshReads && OfEntry(e) in s.misses)
      && (h.quietPass4 ==> forall c :: Active(s, c) && Unsettled(s.calls[c].pc) && s.calls[c].pc.rid == e.id
                                       ==> s.calls[c].msg.stream != e.stream)
    case Miss(OfEntry(e)) => e in st.ever && e.tag.Failure? && e.tag.fid in st.log && e.tag.fid !in st.index
    case Miss(OfRow(fid)) => fid in st.log && fid !in st.index
    case Foreign(e) => !e.tag.Failure? && FreshId(st, e.stream, e.id)
  }

  function MoveTo(s: State, c: nat, pc: Pc): State
    requires c in s.calls
  {
    s.(calls := s.calls[c := s.calls[c].(pc := pc)])
  }

  /** Step 4 with its lost-race rollback. */
  function FinishStore(st: Store, fid: nat, rid: Id, ours: bool, stream: StreamName): Store {
    if fid !in st.log || st.log[fid].rid.None? then MarkRouted(st, fid, rid)
    else if ours && st.log[fid].rid.value != rid then
      var unindexed := if fid in st.index && st.index[fid] == rid then st.(index := st.index - {fid}) else st;
      DropEntry(unindexed, Entry(stream, rid, Failure(fid)))
    else st
  }

  ghost function Apply(h: Hypotheses, s: State, ev: Event): State
    requires Enabled(h, s, ev)
  {
    var st := s.store;
    match ev
    case Begin(c, owner, msg) => s.(calls := s.calls[c := Call(owner, msg, Started)])
    case Log(c, fid) =>
      if fid in st.log then
        MoveTo(s, c, if st.log[fid].rid.Some? then Completed(st.log[fid].rid.value) else Logged(fid))
      else
        MoveTo(s.(store := st.(log := st.log[fid := LogRow(s.calls[c].msg, None)])), c, Logged(fid))
    case Lookup(c) =>
      var fid := s.calls[c].pc.fid;
      MoveTo(s, c, if fid in st.index then Finishing(fid, st.index[fid], false) else Missed(fid))
    case Capture(c, lower) => MoveTo(s, c, Bounded(s.calls[c].pc.fid, lower))
    case Acquire(c, stale, found) =>
      var call := s.calls[c];
      var fid := call.pc.fid;
      var st' := AcquireStore(st, fid, call.owner, call.pc.lower, stale, found);
      var pc' := match AcquireOutcome(st, fid, call.owner, stale, found)
        case Own => Owning(fid)
        case Abort => Aborted
        case ReconciledByUs => Reconciled(st'.index[fid]);
      MoveTo(s.(store := st', halted := HaltedBy(h, s, fid, call.owner, stale)), c, pc')
    case Xadd(c, id) =>
      var call := s.calls[c];
      MoveTo(s.(store := AddEntry(st, Entry(call.msg.stream, id, Failure(call.pc.fid)))), c, Added(call.pc.fid, id))
    case CommitIndex(c, dbError) =>
      var Added(fid, rid) := s.calls[c].pc;
      if dbError || fid in st.index then MoveTo(s, c, Undoing(fid, rid))
      else MoveTo(s.(store := DropIntent(IndexIfAbsent(st, fid, rid), fid)), c, Finishing(fid, rid, true))
    case Xdel(c, redisError) =>
      var call := s.calls[c];
      var st' := if redisError then st else DropEntry(st, Entry(call.msg.stream, call.pc.rid, Failure(call.pc.fid)));
      MoveTo(s.(store := st'), c, Rechecking(call.pc.fid))
    case Recheck(c) =>
      var fid := s.calls[c].pc.fid;
      MoveTo(s, c, if fid in st.index then Finishing(fid, st.index[fid], false) else Raised)
    case Finish(c) =>
      var Finishing(fid, rid, ours) := s.calls[c].pc;
      var winner := if fid in st.log && st.log[fid].rid.Some? then st.log[fid].rid.value else rid;
      MoveTo(s.(store := FinishStore(st, fid, rid, ours, s.calls[c].msg.stream)), c, Completed(winner))
    case Crash(c) => MoveTo(s, c, Crashed)
    case Pass1(j, fid, stale, found) =>
      s.(store := Pass1Store(st, fid, Janitor(j), stale, found), halted := HaltedBy(h, s, fid, Janitor(j), stale))
    case Pass2(j, fid, lower, stale, found, orphan, id, fate, late) =>
      if fate.RollsBack? then s.(store := AddEntry(st, Entry(st.log[fid].msg.stream, id, Failure(fid))))
      else
        var st' := if late then SettleStore(AcquireStore(st, fid, Janitor(j), lower, stale, found), fid, orphan, id)
                   else Pass2Store(st, fid, Janitor(j), lower, stale, found, orphan, id);
        s.(store := st', halted := HaltedBy(h, s, fid, Janitor(j), stale))
    case Pass4(e, late) => s.(store := if late then Pass4Write(st, e) else Pass4Store(st, e))
    case Miss(miss) => s.(misses := s.misses + {miss})
    case Foreign(e) => s.(store := AddEntry(st, e))
  }

  /** A run is valid when every event was enabled where it happened. */
  ghost predicate ValidRun(h: Hypotheses, run: seq<Event>)
    decreases |run|, 0
  {
    run == [] || (ValidRun(h, run[..|run| - 1]) && Enabled(h, Exec(h, run[..|run| - 1]), run[|run| - 1]))
  }

  ghost function Exec(h: Hypotheses, run: seq<Event>): State
    requires ValidRun(h, run)
    decreases |run|, 1
  {
    if run == [] then INIT else Apply(h, Exec(h, run[..|run| - 1]), run[|run| - 1])
  }

  /** A valid run can be extended by any event enabled at its end. */
  lemma Extend(h: Hypotheses, run: seq<Event>, ev: Event)
    requires ValidRun(h, run) && Enabled(h, Exec(h, run), ev)
    ensures ValidRun(h, run + [ev]) && Exec(h, run + [ev]) == Apply(h, Exec(h, run), ev)
  {
    assert (run + [ev])[..|run|] == run;
  }
}
