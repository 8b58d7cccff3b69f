/** The consumer: no message leaves the group's pending list before it is dealt with.  The processed
    check, the claim, the audit commit, the Lua script and every step of the routing protocol are
    separate events, so workers interleave and stop anywhere. */
module Acknowledgement {
  import opened Options
  import opened RedisIds
  import opened Deadletter
  import opened LogRows

  datatype EventId = EventId(uuid: nat)

  /** The members of `stream:<stream>:<group>:processed` and the names of the claim keys. */
  datatype Key = Key(stream: StreamName, group: GroupName, event: EventId)

  /** How a message comes through parsing and the schema check. */
  datatype Gate = Passes | GoesToDeadletter | Raises

  datatype Stage =
    | Checking
    | AckingDuplicate
    | Claiming
    | Losing
    | Locking
    | Yielded
    | Audited
    | Acked
    | Failing
    | NeedsRoute
    | Routing(call: nat)
    | Done

  datatype Worker = Worker(name: nat, owner: Owner, msg: Msg, gate: Gate, stage: Stage)

  /** `everProcessed` is history; `processed` may expire. */
  datatype Group = Group(
    routing: State,
    delivered: map<Msg, Option<EventId>>,
    pending: set<Msg>,
    processed: set<Key>,
    everProcessed: set<Key>,
    audited: set<Key>,
    claims: map<Key, nat>,
    failures: map<Msg, nat>,
    workers: map<nat, Worker>)

  const EMPTY: Group := Group(INIT, map[], {}, {}, {}, {}, map[], map[], map[])

  datatype Act =
    | Deliver(msg: Msg, event: Option<EventId>)
    | Pick(w: nat, name: nat, owner: Owner, msg: Msg, gate: Gate)
    | CheckProcessed(w: nat)
    | AckDuplicate(w: nat)
    | Claim(w: nat)
    | CheckAsLoser(w: nat)
    | Lock(w: nat)
    | LockFails(w: nat)
    | CommitAudit(w: nat)
    | RunLua(w: nat)
    | CallerFails(w: nat)
    | CountFailure(w: nat)
    | StartRouting(w: nat, call: nat)
    | RoutingStep(step: Event)
    | AckRouted(w: nat, redisError: bool)
    | Leave(w: nat)
    | ExpireClaim(key: Key)
    | ExpireProcessed(stream: StreamName, group: GroupName)

  function KeyOf(g: Group, msg: Msg): Key
    requires msg in g.delivered && g.delivered[msg].Some?
  {
    Key(msg.stream, msg.group, g.delivered[msg].value)
  }

  predicate At(g: Group, w: nat, stage: Stage) {
    w in g.workers && g.workers[w].stage == stage && g.workers[w].msg in g.delivered
  }

  predicate AtParsed(g: Group, w: nat, stage: Stage) {
    At(g, w, stage) && g.delivered[g.workers[w].msg].Some?
  }

  predicate RoutedBy(g: Group, w: nat) {
    && w in g.workers && g.workers[w].stage.Routing? && g.workers[w].stage.call in g.routing.calls
    && var pc := g.routing.calls[g.workers[w].stage.call].pc; pc.Completed? || pc.Reconciled?
  }

  ghost predicate Possible(h: Hypotheses, g: Group, a: Act) {
    match a
    case Deliver(m, event) => m !in g.delivered
    case Pick(w, name, owner, m, gate) =>
      w !in g.workers && m in g.pending && m in g.delivered && owner.Consumer?
        && (gate.Passes? ==> g.delivered[m].Some?)
    case CheckProcessed(w) => AtParsed(g, w, Checking)
    case AckDuplicate(w) => At(g, w, AckingDuplicate)
    case Claim(w) => AtParsed(g, w, Claiming)
    case CheckAsLoser(w) => AtParsed(g, w, Losing)
    case Lock(w) => At(g, w, Locking)
    case LockFails(w) => AtParsed(g, w, Locking)
    case CommitAudit(w) => AtParsed(g, w, Yielded)
    case RunLua(w) => AtParsed(g, w, Audited)
    case CallerFails(w) => AtParsed(g, w, Yielded) || AtParsed(g, w, Audited) || AtParsed(g, w, Acked)
    case CountFailure(w) => At(g, w, Failing)
    case StartRouting(w, c) => At(g, w, NeedsRoute)
      && Enabled(h, g.routing, Begin(c, g.workers[w].owner, g.workers[w].msg))
    case RoutingStep(ev) => !ev.Begin? && Enabled(h, g.routing, ev)
    case AckRouted(w, _) => RoutedBy(g, w)
    case Leave(w) => w in g.workers
    case ExpireClaim(_) => true
    case ExpireProcessed(_, _) => true
  }

  function Stand(g: Group, w: nat, stage: Stage): Group
    requires w in g.workers
  {
    g.(workers := g.workers[w := g.workers[w].(stage := stage)])
  }

  function Failures(g: Group, m: Msg): nat {
    if m in g.failures then g.failures[m] else 0
  }

  /** `limit` is `max_attempts_before_deadletter`. */
  ghost function Do(h: Hypotheses, limit: nat, g: Group, a: Act): Group
    requires Possible(h, g, a)
  {
    match a
    case Deliver(m, event) => g.(delivered := g.delivered[m := event], pending := g.pending + {m})
    case Pick(w, name, owner, m, gate) =>
      var stage := match gate case Passes => Checking case GoesToDeadletter => NeedsRoute case Raises => Done;
      g.(workers := g.workers[w := Worker(name, owner, m, gate, stage)])
    case CheckProcessed(w) =>
      Stand(g, w, if KeyOf(g, g.workers[w].msg) in g.processed then AckingDuplicate else Claiming)
    case AckDuplicate(w) => Stand(g.(pending := g.pending - {g.workers[w].msg}), w, Done)
    case Claim(w) =>
      var key := KeyOf(g, g.workers[w].msg);
      if key !in g.claims then Stand(g.(claims := g.claims[key := g.workers[w].name]), w, Locking)
      else Stand(g, w, if g.claims[key] == g.workers[w].name then Locking else Losing)
    case CheckAsLoser(w) =>
      Stand(g, w, if KeyOf(g, g.workers[w].msg) in g.processed then AckingDuplicate else Done)
    case Lock(w) => Stand(g, w, Yielded)
    case LockFails(w) => Stand(g.(claims := g.claims - {KeyOf(g, g.workers[w].msg)}), w, Done)
    case CommitAudit(w) => Stand(g.(audited := g.audited + {KeyOf(g, g.workers[w].msg)}), w, Audited)
    case RunLua(w) =>
      var key := KeyOf(g, g.workers[w].msg);
      Stand(g.(processed := g.processed + {key}, everProcessed := g.everProcessed + {key},
               claims := g.claims - {key}, pending := g.pending - {g.workers[w].msg}), w, Acked)
    case CallerFails(w) => Stand(g.(claims := g.claims - {KeyOf(g, g.workers[w].msg)}), w, Failing)
    case CountFailure(w) =>
      var n := Failures(g, g.workers[w].msg) + 1;
      Stand(g.(failures := g.failures[g.workers[w].msg := n]), w, if n > limit then NeedsRoute else Done)
    case StartRouting(w, c) =>
      Stand(g.(routing := Apply(h, g.routing, Begin(c, g.workers[w].owner, g.workers[w].msg))), w, Routing(c))
    case RoutingStep(ev) => g.(routing := Apply(h, g.routing, ev))
    case AckRouted(w, redisError) =>
      Stand(if redisError then g else g.(pending := g.pending - {g.workers[w].msg}), w, Done)
    case Leave(w) => Stand(g, w, Done)
    case ExpireClaim(key) => g.(claims := g.claims - {key})
    case ExpireProcessed(stream, group) =>
      g.(processed := set k | k in g.processed && !(k.stream == stream && k.group == group))
  }

  ghost predicate ValidHistory(h: Hypotheses, limit: nat, acts: seq<Act>)
    decreases |acts|, 0
  {
    acts == [] || (ValidHistory(h, limit, acts[..|acts| - 1])
      && Possible(h, After(h, limit, acts[..|acts| - 1]), acts[|acts| - 1]))
  }

  ghost function After(h: Hypotheses, limit: nat, acts: seq<Act>): Group
    requires ValidHistory(h, limit, acts)
    decreases |acts|, 1
  {
    if acts == [] then EMPTY else Do(h, limit, After(h, limit, acts[..|acts| - 1]), acts[|acts| - 1])
  }

  // ---------------------------------------------------------------- the invariant

  /** The message was consumed under a committed audit row, or is durably dead-lettered. */
  ghost predicate DealtWith(g: Group, m: Msg) {
    || (m in g.delivered && g.delivered[m].Some? && KeyOf(g, m) in g.everProcessed && KeyOf(g, m) in g.audited)
    || Routed(g.routing.store, m)
  }

  /** What entitles a message to be dead-lettered: more than `limit` failures, or a worker that found it beyond
      parsing or of the wrong schema. */
  ghost predicate Deserved(limit: nat, g: Group, m: Msg) {
    Failures(g, m) > limit || exists w :: w in g.workers && g.workers[w].msg == m && g.workers[w].gate.GoesToDeadletter?
  }

  ghost predicate WorkerSound(limit: nat, g: Group, w: Worker) {
    && w.msg in g.delivered
    && (w.gate.Passes? ==> g.delivered[w.msg].Some?)
    && (w.stage.AckingDuplicate? ==> g.delivered[w.msg].Some? && KeyOf(g, w.msg) in g.everProcessed)
    && (w.stage.Audited? ==> g.delivered[w.msg].Some? && KeyOf(g, w.msg) in g.audited)
    && (w.stage.Routing? ==> w.stage.call in g.routing.calls && g.routing.calls[w.stage.call].msg == w.msg)
    && (w.stage.NeedsRoute? ==> w.gate.GoesToDeadletter? || Failures(g, w.msg) > limit)
  }

  ghost predicate GroupSound(limit: nat, g: Group) {
    && LogSound(g.routing)
    && g.processed <= g.everProcessed <= g.audited
    && (forall m :: m in g.delivered && m !in g.pending ==> DealtWith(g, m))
    && (forall w :: w in g.workers ==> WorkerSound(limit, g, g.workers[w]))
    && RoutingDeserved(limit, g)
  }

  /** Every routing call and every log row is about a message that deserved it. */
  ghost predicate RoutingDeserved(limit: nat, g: Group) {
    && (forall c :: c in g.routing.calls ==> Deserved(limit, g, g.routing.calls[c].msg))
    && (forall f :: f in g.routing.store.log ==> Deserved(limit, g, g.routing.store.log[f].msg))
  }

  /** What no act takes back. */
  ghost predicate Advances(a: Group, b: Group) {
    && (forall m :: m in a.delivered ==> m in b.delivered && b.delivered[m] == a.delivered[m])
    && a.everProcessed <= b.everProcessed && a.audited <= b.audited
    && LogGrows(a.routing.store, b.routing.store)
    && (forall c :: c in a.routing.calls ==> c in b.routing.calls && b.routing.calls[c].msg == a.routing.calls[c].msg)
    && (forall m :: Failures(a, m) <= Failures(b, m))
    && (forall w :: w in a.workers ==>
        w in b.workers && b.workers[w].msg == a.workers[w].msg && b.workers[w].gate == a.workers[w].gate)
  }

  lemma DeservedStays(limit: nat, a: Group, b: Group, m: Msg)
    requires Advances(a, b) && Deserved(limit, a, m)
    ensures Deserved(limit, b, m)
  {
    if !(Failures(a, m) > limit) {
      var w :| w in a.workers && a.workers[w].msg == m && a.workers[w].gate.GoesToDeadletter?;
      assert b.workers[w].msg == m;
    }
  }

  lemma DealtWithStays(a: Group, b: Group, m: Msg)
    requires Advances(a, b) && DealtWith(a, m)
    ensures DealtWith(b, m)
  {
    if r :| RoutedAs(a.routing.store, m, r) {
      RoutedStays(a.routing.store, b.routing.store, m, r);
    }
  }

  lemma CallsKeepTheirMessage(h: Hypotheses, s: State, ev: Event)
    requires Enabled(h, s, ev)
    ensures forall c :: c in s.calls ==> c in Apply(h, s, ev).calls && Apply(h, s, ev).calls[c].msg == s.calls[c].msg
  {
  }

  lemma OtherActsKeepRouting(h: Hypotheses, limit: nat, g: Group, a: Act)
    requires Possible(h, g, a) && !a.RoutingStep? && !a.StartRouting?
    ensures Do(h, limit, g, a).routing == g.routing
  {
  }

  lemma RoutingActsKeepTheRest(h: Hypotheses, limit: nat, g: Group, a: Act)
    requires Possible(h, g, a) && (a.RoutingStep? || a.StartRouting?)
    ensures var g' := Do(h, limit, g, a);
            && g'.delivered == g.delivered && g'.everProcessed == g.everProcessed && g'.audited == g.audited
            && g'.failures == g.failures && g'.pending == g.pending && g'.processed == g.processed
  {
  }

  lemma ActAdvances(h: Hypotheses, limit: nat, g: Group, a: Act)
    requires GroupSound(limit, g) && Possible(h, g, a)
    ensures Advances(g, Do(h, limit, g, a)) && LogSound(Do(h, limit, g, a).routing)
  {
    if a.RoutingStep? || a.StartRouting? {
      RoutingAdvances(h, limit, g, a);
      RoutingActsKeepTheRest(h, limit, g, a);
    } else {
      OtherActsKeepRouting(h, limit, g, a);
      OtherActsAdvance(h, limit, g, a);
    }
    WorkersStay(h, limit, g, a);
  }

  lemma RoutingAdvances(h: Hypotheses, limit: nat, g: Group, a: Act)
    requires LogSound(g.routing) && Possible(h, g, a) && (a.RoutingStep? || a.StartRouting?)
    ensures var g' := Do(h, limit, g, a);
            && LogSound(g'.routing) && LogGrows(g.routing.store, g'.routing.store)
            && (forall c :: c in g.routing.calls ==>
                c in g'.routing.calls && g'.routing.calls[c].msg == g.routing.calls[c].msg)
  {
    var ev := if a.RoutingStep? then a.step else Begin(a.call, g.workers[a.w].owner, g.workers[a.w].msg);
    StepLogged(h, g.routing, ev);
    CallsKeepTheirMessage(h, g.routing, ev);
  }

  /** Acts that belong to one worker. */
  predicate OfWorker(a: Act) {
    !a.Deliver? && !a.RoutingStep? && !a.ExpireClaim? && !a.ExpireProcessed?
  }

  lemma OnlyOneWorkerMoves(h: Hypotheses, limit: nat, g: Group, a: Act)
    requires Possible(h, g, a)
    ensures var g' := Do(h, limit, g, a);
            && (!OfWorker(a) ==> g'.workers == g.workers)
            && (OfWorker(a) ==> a.w in g'.workers && g'.workers == g.workers[a.w := g'.workers[a.w]])
            && (OfWorker(a) && !a.Pick? ==>
                a.w in g.workers && g'.workers[a.w] == g.workers[a.w].(stage := g'.workers[a.w].stage))
  {
  }

  lemma WorkersStay(h: Hypotheses, limit: nat, g: Group, a: Act)
    requires Possible(h, g, a)
    ensures var g' := Do(h, limit, g, a);
            forall w :: w in g.workers ==>
                w in g'.workers && g'.workers[w].msg == g.workers[w].msg && g'.workers[w].gate == g.workers[w].gate
  {
    OnlyOneWorkerMoves(h, limit, g, a);
  }

  lemma OtherActsAdvance(h: Hypotheses, limit: nat, g: Group, a: Act)
    requires Possible(h, g, a) && !a.RoutingStep? && !a.StartRouting?
    ensures var g' := Do(h, limit, g, a);
            && (forall m :: m in g.delivered ==> m in g'.delivered && g'.delivered[m] == g.delivered[m])
            && g.everProcessed <= g'.everProcessed && g.audited <= g'.audited
            && (forall m :: Failures(g, m) <= Failures(g', m))
  {
  }

  /** The one message that an act may acknowledge is dealt with by then. */
  lemma AckedIsDealtWith(h: Hypotheses, limit: nat, g: Group, a: Act, m: Msg)
    requires GroupSound(limit, g) && Possible(h, g, a) && m in g.pending && m !in Do(h, limit, g, a).pending
    ensures DealtWith(Do(h, limit, g, a), m)
  {
    OnlyTheseAck(h, limit, g, a);
    if a.AckRouted? {
      RoutedIsDealtWith(h, limit, g, a);
    } else {
      ProcessedIsDealtWith(h, limit, g, a);
    }
  }

  lemma OnlyTheseAck(h: Hypotheses, limit: nat, g: Group, a: Act)
    requires Possible(h, g, a)
    ensures var g' := Do(h, limit, g, a);
            if a.AckRouted? || a.AckDuplicate? || a.RunLua? then g.pending - {g.workers[a.w].msg} <= g'.pending
                else g.pending <= g'.pending
  {
  }

  lemma RoutedIsDealtWith(h: Hypotheses, limit: nat, g: Group, a: Act)
    requires GroupSound(limit, g) && Possible(h, g, a) && a.AckRouted?
    ensures DealtWith(Do(h, limit, g, a), g.workers[a.w].msg)
  {
    assert WorkerSound(limit, g, g.workers[a.w]);
    assert CallLogged(g.routing.store, g.routing.calls[g.workers[a.w].stage.call]);
    OtherActsKeepRouting(h, limit, g, a);
  }

  lemma ProcessedIsDealtWith(h: Hypotheses, limit: nat, g: Group, a: Act)
    requires GroupSound(limit, g) && Possible(h, g, a) && (a.AckDuplicate? || a.RunLua?)
    ensures DealtWith(Do(h, limit, g, a), g.workers[a.w].msg)
  {
    assert WorkerSound(limit, g, g.workers[a.w]);
  }

  lemma IdleWorkerStaysSound(limit: nat, g: Group, g': Group, w: Worker)
    requires Advances(g, g') && WorkerSound(limit, g, w)
    ensures WorkerSound(limit, g', w)
  {
  }

  /** What a stage other than routing promises about the group. */
  ghost predicate StageHolds(limit: nat, g: Group, w: Worker, stage: Stage)
    requires w.msg in g.delivered
  {
    && !stage.Routing?
    && (stage.AckingDuplicate? ==> g.delivered[w.msg].Some? && KeyOf(g, w.msg) in g.everProcessed)
    && (stage.Audited? ==> g.delivered[w.msg].Some? && KeyOf(g, w.msg) in g.audited)
    && (stage.NeedsRoute? ==> w.gate.GoesToDeadletter? || Failures(g, w.msg) > limit)
  }

  lemma MovedStage(h: Hypotheses, limit: nat, g: Group, a: Act)
    requires GroupSound(limit, g) && Possible(h, g, a) && OfWorker(a) && !a.Pick? && !a.StartRouting?
    ensures var g' := Do(h, limit, g, a);
            a.w in g.workers && g.workers[a.w].msg in g'.delivered
              && StageHolds(limit, g', g.workers[a.w], g'.workers[a.w].stage)
  {
    assert WorkerSound(limit, g, g.workers[a.w]);
  }

  lemma MovedWorkerIsSound(h: Hypotheses, limit: nat, g: Group, a: Act)
    requires GroupSound(limit, g) && Possible(h, g, a) && OfWorker(a)
    ensures a.w in Do(h, limit, g, a).workers && WorkerSound(limit, Do(h, limit, g, a), Do(h, limit, g, a).workers[a.w])
  {
    OnlyOneWorkerMoves(h, limit, g, a);
    if a.StartRouting? {
      assert WorkerSound(limit, g, g.workers[a.w]);
      RoutingActsKeepTheRest(h, limit, g, a);
    } else if !a.Pick? {
      assert WorkerSound(limit, g, g.workers[a.w]);
      MovedStage(h, limit, g, a);
      ActAdvances(h, limit, g, a);
    }
  }

  lemma ActKeepsSound(h: Hypotheses, limit: nat, g: Group, a: Act)
    requires GroupSound(limit, g) && Possible(h, g, a)
    ensures GroupSound(limit, Do(h, limit, g, a)) && Advances(g, Do(h, limit, g, a))
  {
    var g' := Do(h, limit, g, a);
    ActAdvances(h, limit, g, a);
    forall m | m in g'.delivered && m !in g'.pending ensures DealtWith(g', m) {
      if m in g.delivered && m !in g.pending {
        DealtWithStays(g, g', m);
      } else {
        AckedIsDealtWith(h, limit, g, a, m);
      }
    }
    forall w | w in g'.workers ensures WorkerSound(limit, g', g'.workers[w]) {
      OnlyOneWorkerMoves(h, limit, g, a);
      if OfWorker(a) && w == a.w {
        MovedWorkerIsSound(h, limit, g, a);
      } else {
        IdleWorkerStaysSound(limit, g, g', g.workers[w]);
      }
    }
    ProcessedIsAudited(h, limit, g, a);
    RoutingStaysDeserved(h, limit, g, a);
  }

  /** Calls are started and rows are logged only for messages that deserve it. */
  lemma RoutingStaysDeserved(h: Hypotheses, limit: nat, g: Group, a: Act)
    requires GroupSound(limit, g) && Possible(h, g, a) && Advances(g, Do(h, limit, g, a))
    ensures RoutingDeserved(limit, Do(h, limit, g, a))
  {
    var g' := Do(h, limit, g, a);
    forall m | Deserved(limit, g, m) ensures Deserved(limit, g', m) {
      DeservedStays(limit, g, g', m);
    }
    if a.StartRouting? {
      assert WorkerSound(limit, g, g.workers[a.w]);
      assert Deserved(limit, g, g.workers[a.w].msg);
      RowsComeFromCalls(h, g.routing, Begin(a.call, g.workers[a.w].owner, g.workers[a.w].msg));
    } else if a.RoutingStep? {
      RowsComeFromCalls(h, g.routing, a.step);
    } else {
      OtherActsKeepRouting(h, limit, g, a);
    }
  }

  /** A step starts a call only as `Begin` and adds a row only for the message of the call that logs it. */
  lemma RowsComeFromCalls(h: Hypotheses, s: State, ev: Event)
    requires Enabled(h, s, ev) && LogSound(s)
    ensures var s' := Apply(h, s, ev);
            && (forall c :: c in s'.calls && c !in s.calls ==> ev.Begin? && s'.calls[c].msg == ev.msg)
            && (forall c :: c in s'.calls && c in s.calls ==> s'.calls[c].msg == s.calls[c].msg)
            && (forall f :: f in s'.store.log ==>
                  if f in s.store.log then s'.store.log[f].msg == s.store.log[f].msg
                  else exists c :: c in s.calls && s.calls[c].msg == s'.store.log[f].msg)
  {
    StepLogged(h, s, ev);
    CallsKeepTheirMessage(h, s, ev);
    if OfCall(ev) {
      OnlyOneCallMoves(h, s, ev);
      if ev.Acquire? || ev.Finish? {
        CallStepFills(h, s, ev);
      } else if !ev.Log? {
        OtherStepsKeepLog(h, s, ev);
      }
    } else {
      PassesFill(h, s, ev);
    }
  }

  lemma ProcessedIsAudited(h: Hypotheses, limit: nat, g: Group, a: Act)
    requires GroupSound(limit, g) && Possible(h, g, a)
    ensures Do(h, limit, g, a).processed <= Do(h, limit, g, a).everProcessed <= Do(h, limit, g, a).audited
  {
    if a.RunLua? {
      assert WorkerSound(limit, g, g.workers[a.w]);
    }
  }

  lemma {:induction false} HistorySound(h: Hypotheses, limit: nat, acts: seq<Act>)
    requires ValidHistory(h, limit, acts)
    ensures GroupSound(limit, After(h, limit, acts))
  {
    if acts != [] {
      HistorySound(h, limit, acts[..|acts| - 1]);
      ActKeepsSound(h, limit, After(h, limit, acts[..|acts| - 1]), acts[|acts| - 1]);
    }
  }

  /** No message is lost at acknowledgement, in any interleaving and with any crashes: what has left the
      pending list was processed under a committed audit row or is dead-lettered with a Redis id. */
  lemma NoMessageLost(h: Hypotheses, limit: nat, acts: seq<Act>)
    requires ValidHistory(h, limit, acts)
    ensures var g := After(h, limit, acts);
            forall m :: m in g.delivered && m !in g.pending ==> DealtWith(g, m)
  {
    HistorySound(h, limit, acts);
  }

  /** No message is dead-lettered early: every row of the log is about a message that failed more than `limit`
      times, or that a worker found beyond parsing or of the wrong schema. */
  lemma OnlyDeservedAreDeadlettered(h: Hypotheses, limit: nat, acts: seq<Act>)
    requires ValidHistory(h, limit, acts)
    ensures var g := After(h, limit, acts);
            forall f :: f in g.routing.store.log ==> Deserved(limit, g, g.routing.store.log[f].msg)
  {
    HistorySound(h, limit, acts);
  }

  /** The second reason is real: a parsed message of the wrong schema is logged with no failure counted. */
  lemma SchemaMismatchNeedsNoFailures(h: Hypotheses, limit: nat) returns (acts: seq<Act>, m: Msg)
    ensures ValidHistory(h, limit, acts)
    ensures var g := After(h, limit, acts);
            && m in g.delivered && g.delivered[m].Some? && Failures(g, m) == 0
            && exists f :: f in g.routing.store.log && g.routing.store.log[f].msg == m
  {
    acts, m := ReachMismatch(h, limit);
    acts := StartFirst(h, limit, acts, m);
    acts := Continue(h, limit, acts, RoutingStep(Log(0, 7)));
    assert 7 in After(h, limit, acts).routing.store.log;
  }

  lemma StartFirst(h: Hypotheses, limit: nat, acts: seq<Act>, m: Msg) returns (longer: seq<Act>)
    requires ValidHistory(h, limit, acts)
    requires var g := After(h, limit, acts);
             g.routing == INIT && m in g.delivered && 0 in g.workers
               && g.workers[0] == Worker(0, Consumer(0), m, GoesToDeadletter, NeedsRoute)
    ensures ValidHistory(h, limit, longer)
    ensures var g, g' := After(h, limit, acts), After(h, limit, longer);
            g'.routing == INIT.(calls := map[0 := Call(Consumer(0), m, Started)]) && g'.delivered == g.delivered
              && g'.failures == g.failures
  {
    longer := Continue(h, limit, acts, StartRouting(0, 0));
  }

  lemma ReachMismatch(h: Hypotheses, limit: nat) returns (acts: seq<Act>, m: Msg)
    ensures ValidHistory(h, limit, acts)
    ensures After(h, limit, acts) == EMPTY.(
              delivered := map[m := Some(EventId(1))], pending := {m},
              workers := map[0 := Worker(0, Consumer(0), m, GoesToDeadletter, NeedsRoute)])
  {
    m := Msg(StreamName("events"), GroupName("workers"), Id(1, 0));
    acts := Continue(h, limit, [], Deliver(m, Some(EventId(1))));
    acts := Continue(h, limit, acts, Pick(0, 0, Consumer(0), m, GoesToDeadletter));
  }

  lemma Continue(h: Hypotheses, limit: nat, acts: seq<Act>, a: Act) returns (longer: seq<Act>)
    requires ValidHistory(h, limit, acts) && Possible(h, After(h, limit, acts), a)
    ensures ValidHistory(h, limit, longer) && After(h, limit, longer) == Do(h, limit, After(h, limit, acts), a)
    ensures acts <= longer
  {
    longer := acts + [a];
    assert longer[..|acts|] == acts;
  }
}
