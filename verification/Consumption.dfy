/** The consumer's other half: what its reads decide in every history, and that no delivered message is ever stuck. */
module Consumption {
  import opened Options
  import opened RedisIds
  import opened Deadletter
  import opened LogRows
  import opened Acknowledgement
  import opened RoutingCalls

  // ---------------------------------------------------------------- failures

  /** A counted failure leads to routing exactly when it brings the message's count above the limit. */
  lemma FailureAboveLimitRoutes(h: Hypotheses, limit: nat, acts: seq<Act>, w: nat)
    requires ValidHistory(h, limit, acts) && Possible(h, After(h, limit, acts), CountFailure(w))
    ensures var g := After(h, limit, acts);
            var m, g' := g.workers[w].msg, Do(h, limit, g, CountFailure(w));
            && Failures(g', m) == Failures(g, m) + 1
            && (forall o :: o != m ==> Failures(g', o) == Failures(g, o))
            && ((exists c :: Possible(h, g', StartRouting(w, c))) <==> Failures(g', m) > limit)
  {
    var g := After(h, limit, acts);
    WorkersAreConsumers(h, limit, acts, w);
    CanStartIff(h, Do(h, limit, g, CountFailure(w)), w);
  }

  lemma CanStartIff(h: Hypotheses, g: Group, w: nat)
    requires w in g.workers && g.workers[w].msg in g.delivered && g.workers[w].owner.Consumer?
    ensures (exists c :: Possible(h, g, StartRouting(w, c))) <==> g.workers[w].stage.NeedsRoute?
  {
    var c := UnusedNumber(g.routing.calls.Keys);
    if g.workers[w].stage.NeedsRoute? {
      assert Possible(h, g, StartRouting(w, c));
    }
  }

  lemma {:induction false} WorkersAreConsumers(h: Hypotheses, limit: nat, acts: seq<Act>, w: nat)
    requires ValidHistory(h, limit, acts) && w in After(h, limit, acts).workers
    ensures After(h, limit, acts).workers[w].owner.Consumer?
  {
    if acts != [] {
      var before, a := acts[..|acts| - 1], acts[|acts| - 1];
      OnlyOneWorkerMoves(h, limit, After(h, limit, before), a);
      if w in After(h, limit, before).workers {
        WorkersAreConsumers(h, limit, before, w);
      }
    }
  }

  // ---------------------------------------------------------------- the pending list

  /** The three acknowledgements. */
  predicate Acknowledges(a: Act) {
    a.RunLua? || a.AckDuplicate? || (a.AckRouted? && !a.redisError)
  }

  /** An acknowledgement takes exactly its worker's message off the pending list, a delivery puts one on it, and nothing
      else changes it. */
  lemma PendingExactly(h: Hypotheses, limit: nat, g: Group, a: Act)
    requires Possible(h, g, a)
    ensures Acknowledges(a) ==> Do(h, limit, g, a).pending == g.pending - {g.workers[a.w].msg}
    ensures a.Deliver? ==> Do(h, limit, g, a).pending == g.pending + {a.msg}
    ensures !Acknowledges(a) && !a.Deliver? ==> Do(h, limit, g, a).pending == g.pending
  {
  }

  /** The key that a worker's message has in the processed set and among the claims. */
  function WorkerKey(g: Group, w: nat): Key
    requires w in g.workers && g.workers[w].msg in g.delivered && g.delivered[g.workers[w].msg].Some?
  {
    KeyOf(g, g.workers[w].msg)
  }

  /** Two messages share it iff they carry one event in one stream and group. */
  lemma KeysTellApart(g: Group, a: Msg, b: Msg)
    requires a in g.delivered && b in g.delivered && g.delivered[a].Some? && g.delivered[b].Some?
    ensures KeyOf(g, a) == KeyOf(g, b) <==>
        a.stream == b.stream && a.group == b.group && g.delivered[a] == g.delivered[b]
  {
  }

  /** The script marks the event processed; it and every failure before it give the claim back. */
  lemma ClaimIsGivenBack(h: Hypotheses, limit: nat, g: Group, a: Act)
    requires Possible(h, g, a) && (a.RunLua? || a.LockFails? || a.CallerFails?)
    ensures var g', key := Do(h, limit, g, a), WorkerKey(g, a.w);
            && g'.claims == g.claims - {key}
            && g'.processed == g.processed + (if a.RunLua? then {key} else {})
  {
  }

  // ---------------------------------------------------------------- the reads behind a yield

  /** The stages behind the processed check. */
  predicate PastCheck(stage: Stage) {
    stage.Claiming? || stage.Losing? || PastClaim(stage)
  }

  /** The stages behind a claim that was won. */
  predicate PastClaim(stage: Stage) {
    stage.Locking? || stage.Yielded? || stage.Audited? || stage.Acked?
  }

  /** The worker made its check as act `n`, and its event was not in the processed set. */
  ghost predicate UnprocessedAt(h: Hypotheses, limit: nat, acts: seq<Act>, n: nat, w: nat) {
    && n < |acts| && acts[n] == CheckProcessed(w) && ValidHistory(h, limit, acts[..n])
    && var g := After(h, limit, acts[..n]);
       AtParsed(g, w, Checking) && WorkerKey(g, w) !in g.processed
  }

  /** The worker asked for the claim as act `n`, and nobody else held it. */
  ghost predicate ClaimFreeAt(h: Hypotheses, limit: nat, acts: seq<Act>, n: nat, w: nat) {
    && n < |acts| && acts[n] == Claim(w) && ValidHistory(h, limit, acts[..n])
    && var g := After(h, limit, acts[..n]);
       AtParsed(g, w, Claiming)
         && (WorkerKey(g, w) in g.claims ==> g.claims[WorkerKey(g, w)] == g.workers[w].name)
  }

  lemma ChecksAreMade(h: Hypotheses, limit: nat, g: Group, a: Act, w: nat)
    requires Possible(h, g, a) && w in Do(h, limit, g, a).workers && PastCheck(Do(h, limit, g, a).workers[w].stage)
    ensures && w in g.workers
            && (PastCheck(g.workers[w].stage)
                || (a == CheckProcessed(w) && AtParsed(g, w, Checking) && WorkerKey(g, w) !in g.processed))
  {
    OnlyOneWorkerMoves(h, limit, g, a);
  }

  lemma ClaimsAreWon(h: Hypotheses, limit: nat, g: Group, a: Act, w: nat)
    requires Possible(h, g, a) && w in Do(h, limit, g, a).workers && PastClaim(Do(h, limit, g, a).workers[w].stage)
    ensures && w in g.workers
            && (PastClaim(g.workers[w].stage)
                || (a == Claim(w) && AtParsed(g, w, Claiming)
                    && (WorkerKey(g, w) in g.claims ==> g.claims[WorkerKey(g, w)] == g.workers[w].name)))
  {
    OnlyOneWorkerMoves(h, limit, g, a);
  }

  lemma WitnessStays(h: Hypotheses, limit: nat, acts: seq<Act>, a: Act, n: nat, w: nat)
    requires n < |acts|
    ensures UnprocessedAt(h, limit, acts, n, w) ==> UnprocessedAt(h, limit, acts + [a], n, w)
    ensures ClaimFreeAt(h, limit, acts, n, w) ==> ClaimFreeAt(h, limit, acts + [a], n, w)
  {
    assert (acts + [a])[..n] == acts[..n];
  }

  /** In every history, a worker that yields its message, or locks for it, or audits or acknowledges it, found the event
      unprocessed and won or held the claim. */
  lemma {:induction false} YieldFollowsChecks(h: Hypotheses, limit: nat, acts: seq<Act>, w: nat)
    requires ValidHistory(h, limit, acts) && w in After(h, limit, acts).workers
    ensures PastCheck(After(h, limit, acts).workers[w].stage) ==> exists n :: UnprocessedAt(h, limit, acts, n, w)
    ensures PastClaim(After(h, limit, acts).workers[w].stage) ==> exists n :: ClaimFreeAt(h, limit, acts, n, w)
  {
    if acts != [] {
      var before, a := acts[..|acts| - 1], acts[|acts| - 1];
      assert acts == before + [a];
      var g, stage' := After(h, limit, before), After(h, limit, acts).workers[w].stage;
      if w in g.workers {
        YieldFollowsChecks(h, limit, before, w);
      }
      if PastCheck(stage') {
        ChecksAreMade(h, limit, g, a, w);
        if PastCheck(g.workers[w].stage) {
          var n :| UnprocessedAt(h, limit, before, n, w);
          WitnessStays(h, limit, before, a, n, w);
        } else {
          assert UnprocessedAt(h, limit, acts, |before|, w);
        }
      }
      if PastClaim(stage') {
        ClaimsAreWon(h, limit, g, a, w);
        if PastClaim(g.workers[w].stage) {
          var n :| ClaimFreeAt(h, limit, before, n, w);
          WitnessStays(h, limit, before, a, n, w);
        } else {
          assert ClaimFreeAt(h, limit, acts, |before|, w);
        }
      }
    }
  }

  /** The stages of a worker that does not get to handle its message. */
  predicate SteppedBack(stage: Stage) {
    stage.Losing? || stage.AckingDuplicate? || stage.Done?
  }

  lemma SteppedBackStays(h: Hypotheses, limit: nat, g: Group, a: Act, w: nat)
    requires Possible(h, g, a) && w in g.workers && SteppedBack(g.workers[w].stage)
    ensures var g' := Do(h, limit, g, a);
            w in g'.workers && SteppedBack(g'.workers[w].stage)
  {
    OnlyOneWorkerMoves(h, limit, g, a);
  }

  /** The check that finds the event processed, or the claim that another name holds, is the worker's last decision: in
      every later state it is done, or about to acknowledge a duplicate or to check once more. */
  lemma {:induction false} DuplicateIsNeverYielded(h: Hypotheses, limit: nat, acts: seq<Act>, n: nat, w: nat)
    requires ValidHistory(h, limit, acts) && n < |acts| && ValidHistory(h, limit, acts[..n])
    requires var g := After(h, limit, acts[..n]);
             || (acts[n] == CheckProcessed(w) && AtParsed(g, w, Checking) && WorkerKey(g, w) in g.processed)
             || (acts[n] == Claim(w) && AtParsed(g, w, Claiming) && WorkerKey(g, w) in g.claims
                 && g.claims[WorkerKey(g, w)] != g.workers[w].name)
    ensures w in After(h, limit, acts).workers && SteppedBack(After(h, limit, acts).workers[w].stage)
  {
    var before, a := acts[..|acts| - 1], acts[|acts| - 1];
    if n < |before| {
      assert before[..n] == acts[..n];
      DuplicateIsNeverYielded(h, limit, before, n, w);
      SteppedBackStays(h, limit, After(h, limit, before), a, w);
    }
  }

  /** A free claim is taken under the worker's name, one that this name holds already is enough, and one that another
      holds is left alone. */
  lemma ClaimDecides(h: Hypotheses, limit: nat, g: Group, w: nat)
    requires Possible(h, g, Claim(w))
    ensures var g', key, name := Do(h, limit, g, Claim(w)), WorkerKey(g, w), g.workers[w].name;
            && (Possible(h, g', Lock(w)) <==> key !in g.claims || g.claims[key] == name)
            && (Possible(h, g', CheckAsLoser(w)) <==> key in g.claims && g.claims[key] != name)
            && g'.claims == if key in g.claims then g.claims else g.claims[key := name]
  {
  }

  /** The loser's second look: a processed event is acknowledged as a duplicate, any other is left pending. */
  lemma LoserDecides(h: Hypotheses, limit: nat, g: Group, w: nat)
    requires Possible(h, g, CheckAsLoser(w))
    ensures var g' := Do(h, limit, g, CheckAsLoser(w));
            && g'.pending == g.pending
            && (Possible(h, g', AckDuplicate(w)) <==> WorkerKey(g, w) in g.processed)
  {
  }

  // ---------------------------------------------------------------- no message is stuck

  lemma ContinueTo(h: Hypotheses, limit: nat, acts: seq<Act>, a: Act, g': Group) returns (longer: seq<Act>)
    requires ValidHistory(h, limit, acts) && Possible(h, After(h, limit, acts), a)
    requires Do(h, limit, After(h, limit, acts), a) == g'
    ensures acts <= longer && ValidHistory(h, limit, longer) && After(h, limit, longer) == g'
  {
    longer := Continue(h, limit, acts, a);
  }

  /** The message is delivered, pending, parsed and not processed. */
  predicate Open(g: Group, m: Msg) {
    m in g.pending && m in g.delivered && g.delivered[m].Some? && KeyOf(g, m) !in g.processed
  }

  /** The group with a worker of its own for the message, at some stage. */
  function Hired(g: Group, w: nat, m: Msg, gate: Gate, stage: Stage): Group {
    g.(workers := g.workers[w := Worker(0, Consumer(0), m, gate, stage)])
  }

  lemma Rehired(g: Group, w: nat, m: Msg, gate: Gate, a: Stage, b: Stage)
    ensures Hired(Hired(g, w, m, gate, a), w, m, gate, b) == Hired(g, w, m, gate, b)
    ensures Stand(Hired(g, w, m, gate, a), w, b) == Hired(g, w, m, gate, b)
  {
  }

  /** A new worker picks the message up. */
  lemma Picked(h: Hypotheses, limit: nat, acts: seq<Act>, m: Msg, gate: Gate) returns (longer: seq<Act>, w: nat)
    requires ValidHistory(h, limit, acts) && gate != Raises
    requires var g := After(h, limit, acts);
             m in g.pending && m in g.delivered && (gate.Passes? ==> g.delivered[m].Some?)
    ensures acts <= longer && ValidHistory(h, limit, longer) && w !in After(h, limit, acts).workers
    ensures After(h, limit, longer)
        == Hired(After(h, limit, acts), w, m, gate, if gate.Passes? then Checking else NeedsRoute)
  {
    var g := After(h, limit, acts);
    w := UnusedNumber(g.workers.Keys);
    longer := ContinueTo(h, limit, acts, Pick(w, 0, Consumer(0), m, gate),
        Hired(g, w, m, gate, if gate.Passes? then Checking else NeedsRoute));
  }

  /** An open message can be yielded to a worker, once its claim has expired. */
  lemma CanBeYielded(h: Hypotheses, limit: nat, acts: seq<Act>, m: Msg) returns (longer: seq<Act>, w: nat)
    requires ValidHistory(h, limit, acts) && Open(After(h, limit, acts), m)
    ensures acts <= longer && ValidHistory(h, limit, longer)
    ensures var g := After(h, limit, acts);
            After(h, limit, longer) == Hired(g, w, m, Passes, Yielded).(claims := g.claims[KeyOf(g, m) := 0])
  {
    var g := After(h, limit, acts);
    var key := KeyOf(g, m);
    longer, w := Picked(h, limit, acts, m, Passes);
    Rehired(g, w, m, Passes, Checking, Claiming);
    longer := ContinueTo(h, limit, longer, CheckProcessed(w), Hired(g, w, m, Passes, Claiming));
    longer := IsClaimed(h, limit, longer, g, w, m);
    var g1 := g.(claims := g.claims[key := 0]);
    Rehired(g1, w, m, Passes, Locking, Yielded);
    longer := ContinueTo(h, limit, longer, Lock(w), Hired(g1, w, m, Passes, Yielded));
  }

  lemma IsClaimed(h: Hypotheses, limit: nat, acts: seq<Act>, g: Group, w: nat, m: Msg) returns (longer: seq<Act>)
    requires ValidHistory(h, limit, acts) && m in g.delivered && g.delivered[m].Some?
    requires After(h, limit, acts) == Hired(g, w, m, Passes, Claiming)
    ensures acts <= longer && ValidHistory(h, limit, longer)
    ensures After(h, limit, longer) == Hired(g.(claims := g.claims[KeyOf(g, m) := 0]), w, m, Passes, Locking)
  {
    var key := KeyOf(g, m);
    var g1 := g.(claims := g.claims - {key});
    var g2 := g.(claims := g.claims[key := 0]);
    longer := ContinueTo(h, limit, acts, ExpireClaim(key), Hired(g1, w, m, Passes, Claiming));
    assert (g.claims - {key})[key := 0] == g.claims[key := 0];
    Rehired(g2, w, m, Passes, Claiming, Locking);
    longer := ContinueTo(h, limit, longer, Claim(w), Hired(g2, w, m, Passes, Locking));
  }

  /** And then be consumed. */
  lemma CanBeConsumed(h: Hypotheses, limit: nat, acts: seq<Act>, m: Msg) returns (longer: seq<Act>)
    requires ValidHistory(h, limit, acts) && Open(After(h, limit, acts), m)
    ensures acts <= longer && ValidHistory(h, limit, longer)
    ensures var g, g' := After(h, limit, acts), After(h, limit, longer);
            && g'.pending == g.pending - {m} && g'.processed == g.processed + {KeyOf(g, m)}
            && g'.audited == g.audited + {KeyOf(g, m)} && g'.failures == g.failures && g'.routing == g.routing
            && g'.claims == g.claims - {KeyOf(g, m)} && g'.delivered == g.delivered
  {
    var g := After(h, limit, acts);
    var key, w := KeyOf(g, m), 0;
    longer, w := CanBeYielded(h, limit, acts, m);
    var g1 := g.(claims := g.claims[key := 0], audited := g.audited + {key});
    Rehired(g1, w, m, Passes, Yielded, Audited);
    longer := ContinueTo(h, limit, longer, CommitAudit(w), Hired(g1, w, m, Passes, Audited));
    var g2 := g1.(processed := g.processed + {key}, everProcessed := g.everProcessed + {key},
        claims := g.claims - {key}, pending := g.pending - {m});
    Rehired(g2, w, m, Passes, Audited, Acked);
    longer := ContinueTo(h, limit, longer, RunLua(w), Hired(g2, w, m, Passes, Acked));
  }

  /** Or fail once more. */
  lemma CanFail(h: Hypotheses, limit: nat, acts: seq<Act>, m: Msg) returns (longer: seq<Act>, w: nat)
    requires ValidHistory(h, limit, acts) && Open(After(h, limit, acts), m)
    ensures acts <= longer && ValidHistory(h, limit, longer) && Open(After(h, limit, longer), m)
    ensures var g, g' := After(h, limit, acts), After(h, limit, longer);
            && Failures(g', m) == Failures(g, m) + 1 && g'.processed == g.processed && g'.delivered == g.delivered
            && (Failures(g', m) > limit ==> At(g', w, NeedsRoute) && g'.workers[w].msg == m)
  {
    var g := After(h, limit, acts);
    var key := KeyOf(g, m);
    longer, w := CanBeYielded(h, limit, acts, m);
    var g1 := g.(claims := g.claims - {key});
    Rehired(g1, w, m, Passes, Yielded, Failing);
    assert g.claims[key := 0] - {key} == g.claims - {key};
    longer := ContinueTo(h, limit, longer, CallerFails(w), Hired(g1, w, m, Passes, Failing));
    longer := Continue(h, limit, longer, CountFailure(w));
  }

  /** The events of a routing call, as acts. */
  lemma {:induction false} RoutingLifts(h: Hypotheses, limit: nat, acts: seq<Act>, evs: seq<Event>, s': State)
    returns (longer: seq<Act>)
    requires ValidHistory(h, limit, acts) && Leads(h, After(h, limit, acts).routing, evs, s')
    requires forall ev :: ev in evs ==> !ev.Begin?
    ensures acts <= longer && ValidHistory(h, limit, longer)
    ensures After(h, limit, longer) == After(h, limit, acts).(routing := s')
    decreases |evs|
  {
    longer := acts;
    if evs != [] {
      var g := After(h, limit, acts);
      assert evs[0] in evs;
      longer := ContinueTo(h, limit, acts, RoutingStep(evs[0]), g.(routing := Apply(h, g.routing, evs[0])));
      longer := RoutingLifts(h, limit, longer, evs[1..], s');
    }
  }

  /** A worker that has to route its message can do so, whatever state the other calls and the janitor left, and then
      acknowledge it. */
  lemma CanBeRouted(h: Hypotheses, limit: nat, acts: seq<Act>, w: nat) returns (longer: seq<Act>)
    requires ValidHistory(h, limit, acts) && At(After(h, limit, acts), w, NeedsRoute)
    ensures acts <= longer && ValidHistory(h, limit, longer)
    ensures var g, g' := After(h, limit, acts), After(h, limit, longer);
            var m := g.workers[w].msg;
            && Routed(g'.routing.store, m) && g'.pending == g.pending - {m}
            && g'.processed == g.processed && g'.failures == g.failures && g'.delivered == g.delivered
  {
    var g, c := After(h, limit, acts), 0;
    longer, c := CanStartRouting(h, limit, acts, w);
    var g1 := After(h, limit, longer);
    var evs, s' := CallCanEnd(h, g1.routing, c);
    longer := RoutingLifts(h, limit, longer, evs, s');
    CallIsRouted(h, limit, longer, c);
    var g2 := g1.(routing := s', pending := g1.pending - {g1.workers[w].msg},
                  workers := g1.workers[w := g1.workers[w].(stage := Done)]);
    longer := ContinueTo(h, limit, longer, AckRouted(w, false), g2);
  }

  lemma CanStartRouting(h: Hypotheses, limit: nat, acts: seq<Act>, w: nat) returns (longer: seq<Act>, c: nat)
    requires ValidHistory(h, limit, acts) && At(After(h, limit, acts), w, NeedsRoute)
    ensures acts <= longer && ValidHistory(h, limit, longer)
    ensures var g, g' := After(h, limit, acts), After(h, limit, longer);
            && g' == g.(routing := g'.routing, workers := g.workers[w := g.workers[w].(stage := Routing(c))])
            && Active(g'.routing, c) && g'.routing.calls[c] == Call(g.workers[w].owner, g.workers[w].msg, Started)
  {
    var g := After(h, limit, acts);
    WorkersAreConsumers(h, limit, acts, w);
    c := UnusedNumber(g.routing.calls.Keys + g.routing.halted);
    longer := Continue(h, limit, acts, StartRouting(w, c));
  }

  lemma CallIsRouted(h: Hypotheses, limit: nat, acts: seq<Act>, c: nat)
    requires ValidHistory(h, limit, acts)
    requires var s := After(h, limit, acts).routing; c in s.calls && Succeeded(s.calls[c].pc)
    ensures var s := After(h, limit, acts).routing; Routed(s.store, s.calls[c].msg)
  {
    var s := After(h, limit, acts).routing;
    HistorySound(h, limit, acts);
    assert CallLogged(s.store, s.calls[c]);
  }

  /** A poison message: after any history, an open message whose caller keeps failing ends dead-lettered and off the
      pending list, with more than `limit` failures counted and still unprocessed. */
  lemma {:induction false} PoisonIsDeadlettered(h: Hypotheses, limit: nat, acts: seq<Act>, m: Msg)
    returns (longer: seq<Act>)
    requires ValidHistory(h, limit, acts) && Open(After(h, limit, acts), m)
    ensures acts <= longer && ValidHistory(h, limit, longer)
    ensures var g, g' := After(h, limit, acts), After(h, limit, longer);
            && Failures(g', m) > limit && Routed(g'.routing.store, m) && m !in g'.pending
            && g'.processed == g.processed
    decreases limit + 1 - Failures(After(h, limit, acts), m)
  {
    var w;
    longer, w := CanFail(h, limit, acts, m);
    if Failures(After(h, limit, longer), m) > limit {
      longer := CanBeRouted(h, limit, longer, w);
    } else {
      longer := PoisonIsDeadlettered(h, limit, longer, m);
    }
  }

  lemma {:induction false} PendingIsDelivered(h: Hypotheses, limit: nat, acts: seq<Act>, m: Msg)
    requires ValidHistory(h, limit, acts) && m in After(h, limit, acts).pending
    ensures m in After(h, limit, acts).delivered
  {
    if acts != [] {
      var before, a := acts[..|acts| - 1], acts[|acts| - 1];
      PendingExactly(h, limit, After(h, limit, before), a);
      if m in After(h, limit, before).pending {
        PendingIsDelivered(h, limit, before, m);
        HistorySound(h, limit, before);
        ActKeepsSound(h, limit, After(h, limit, before), a);
      }
    }
  }

  /** After any history, with any crashes and any claims left behind, every pending message can still be brought to its
      end: consumed, acknowledged as a duplicate, or dead-lettered. */
  lemma NoMessageIsStuck(h: Hypotheses, limit: nat, acts: seq<Act>, m: Msg) returns (longer: seq<Act>)
    requires ValidHistory(h, limit, acts) && m in After(h, limit, acts).pending
    ensures acts <= longer && ValidHistory(h, limit, longer)
    ensures var g' := After(h, limit, longer); m !in g'.pending && DealtWith(g', m)
  {
    var g, w := After(h, limit, acts), 0;
    PendingIsDelivered(h, limit, acts, m);
    if g.delivered[m].None? {
      longer, w := Picked(h, limit, acts, m, GoesToDeadletter);
      longer := CanBeRouted(h, limit, longer, w);
    } else if KeyOf(g, m) in g.processed {
      longer := DuplicateCanBeAcked(h, limit, acts, m);
    } else {
      longer := CanBeConsumed(h, limit, acts, m);
    }
    HistorySound(h, limit, longer);
  }

  lemma DuplicateCanBeAcked(h: Hypotheses, limit: nat, acts: seq<Act>, m: Msg) returns (longer: seq<Act>)
    requires ValidHistory(h, limit, acts)
    requires var g := After(h, limit, acts);
             m in g.pending && m in g.delivered && g.delivered[m].Some? && KeyOf(g, m) in g.processed
    ensures acts <= longer && ValidHistory(h, limit, longer)
    ensures var g, g' := After(h, limit, acts), After(h, limit, longer);
            g'.pending == g.pending - {m} && g'.delivered == g.delivered && g'.processed == g.processed
  {
    var g, w := After(h, limit, acts), 0;
    longer, w := Picked(h, limit, acts, m, Passes);
    Rehired(g, w, m, Passes, Checking, AckingDuplicate);
    longer := ContinueTo(h, limit, longer, CheckProcessed(w), Hired(g, w, m, Passes, AckingDuplicate));
    var g1 := g.(pending := g.pending - {m});
    Rehired(g1, w, m, Passes, AckingDuplicate, Done);
    longer := ContinueTo(h, limit, longer, AckDuplicate(w), Hired(g1, w, m, Passes, Done));
  }
}
