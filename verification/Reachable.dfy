/**
 What every run of the runtime keeps, over any interleaving of domains: live
 state, recovered state and replayed state agree, and each domain's verdict has
 a closed form in the observations it accepted.
 */
module Reachable {
  import opened Wrappers
  import opened GovernanceKernel
  import opened Store
  import opened Runtime
  import opened Recovery

  // ----- live state is the fold of the log -----

  ghost predicate SequentialEvents(events: seq<StoredEvent>) {
    forall i | 0 <= i < |events| :: events[i].eventId == EventId(i + 1) && Replayable(events[i])
  }

  ghost predicate SequentialOutcomes(outcomes: seq<StoredOutcome>) {
    forall i | 0 <= i < |outcomes| :: outcomes[i].outcomeId == OutcomeId(i + 1)
  }

  /** Counters are list lengths, ids run 1, 2, 3, ... over the whole interleaving, and version keys are unique. */
  ghost predicate Sequential(s: StoreState) {
    && s.eventCounter == |s.events| && SequentialEvents(s.events)
    && s.decisionCounter == |s.decisions| && SequentialDecisions(s.decisions)
    && s.outcomeCounter == |s.outcomes| && SequentialOutcomes(s.outcomes)
    && UniqueDomains(s.versions)
  }

  /** In domain `d` the live state and the recorded version are what folding the domain's own log gives. */
  ghost predicate LiveIsFold(rt: RuntimeState, d: DomainKey) {
    FoldDomain(EventsFor(rt.store.events, d)) == Track(DomainOf(rt.domains, d), StateCounter(rt.store.versions, d))
  }

  ghost predicate Agrees(rt: RuntimeState) {
    FaithfulLog(rt.store.events) && forall d: DomainKey :: LiveIsFold(rt, d)
  }

  lemma ObserveKeepsSequential(rt: RuntimeState, p: ObserveParams)
    requires Sequential(rt.store)
    ensures Sequential(ObserveTool(rt, p).0.store)
  {
    hide EventHeader, NewLines, RenderChanges, ObserveDomain, StateVersion, OutcomeId, DecisionId, EventId;
    if p.InRange() {
      AdvanceKeepsUnique(rt.store.versions, p.domain);
    }
  }

  lemma StepKeepsSequential(rt: RuntimeState, op: Op)
    requires Sequential(rt.store)
    ensures Sequential(Step(rt, op).0.store)
  {
    hide ObserveTool, ReplayTool, ExplainTool, StateVersion, DecisionTrail, CausalChain, OutcomeId, DecisionId, EventId;
    if op.ObserveOp? {
      ObserveKeepsSequential(rt, op.observe);
    }
  }

  /** Judging the stored input again is judging the observation. */
  lemma StoredInputRejudges(rt: RuntimeState, p: ObserveParams)
    requires p.InRange()
    ensures var e := ObservedEvent(rt, p);
      && Replayable(e) && e.domain == p.domain
      && (forall t: Track | t.domain == DomainOf(rt.domains, p.domain) :: Rejudge(t, e) == ObserveDomain(t.domain, p))
  {
    hide EventHeader, NewLines, RenderChanges, StateVersion, EventId, Observe;
  }

  /** The new event is faithful, and extends its own domain's fold by the live step. */
  lemma ObservedEventIsFaithful(rt: RuntimeState, p: ObserveParams)
    requires p.InRange() && LiveIsFold(rt, p.domain)
    ensures var e := ObservedEvent(rt, p);
      && Faithful(rt.store.events, e)
      && LiveIsFold(ObserveTool(rt, p).0, p.domain)
  {
    hide EventHeader, NewLines, RenderChanges, StateVersion, EventId, ObserveDomain, Rejudge, FoldDomain, EventsFor;
    var e := ObservedEvent(rt, p);
    var t := FoldDomain(EventsFor(rt.store.events, p.domain));
    StoredInputRejudges(rt, p);
    assert Rejudge(t, e) == ObserveDomain(t.domain, p);
    AdvanceMovesOneKey(rt.store.versions, p.domain, p.domain);
    EventsForSnoc(rt.store.events, e, p.domain);
    FoldSnoc(EventsFor(rt.store.events, p.domain), e);
  }

  /** An observation moves no other domain. */
  lemma ObserveMovesOneDomain(rt: RuntimeState, p: ObserveParams, d: DomainKey)
    requires d != p.domain
    ensures var rt' := ObserveTool(rt, p).0;
      && DomainOf(rt'.domains, d) == DomainOf(rt.domains, d)
      && StateCounter(rt'.store.versions, d) == StateCounter(rt.store.versions, d)
      && EventsFor(rt'.store.events, d) == EventsFor(rt.store.events, d)
  {
    hide EventHeader, NewLines, RenderChanges, StateVersion, EventId, ObserveDomain;
    if p.InRange() {
      EventsForSnoc(rt.store.events, ObservedEvent(rt, p), d);
      AdvanceMovesOneKey(rt.store.versions, p.domain, d);
    }
  }

  /** Deciding, explaining, recording outcomes and replaying move no domain at all. */
  lemma OtherToolsMoveNoDomain(rt: RuntimeState, op: Op, d: DomainKey)
    requires !op.ObserveOp?
    ensures var rt' := Step(rt, op).0;
      && DomainOf(rt'.domains, d) == DomainOf(rt.domains, d)
      && rt'.store.versions == rt.store.versions
      && rt'.store.events == rt.store.events
  {
    hide ReplayTool, ExplainTool, StateVersion, DecisionTrail, CausalChain, OutcomeId, DecisionId;
  }

  lemma StepKeepsAgrees(rt: RuntimeState, op: Op)
    requires Agrees(rt)
    ensures Agrees(Step(rt, op).0)
  {
    hide ObserveDomain, ObservedEvent, DecideTool, OutcomeTool, ReplayTool, ExplainTool, FoldDomain, EventsFor,
      Faithful, FaithfulLog;
    var rt' := Step(rt, op).0;
    if op.ObserveOp? && op.observe.InRange() {
      var p := op.observe;
      assert LiveIsFold(rt, p.domain);
      ObservedEventIsFaithful(rt, p);
      FaithfulSnoc(rt.store.events, ObservedEvent(rt, p));
      forall d: DomainKey ensures LiveIsFold(rt', d) {
        assert LiveIsFold(rt, d);
        if d != p.domain { ObserveMovesOneDomain(rt, p, d); }
      }
    } else if !op.ObserveOp? {
      forall d: DomainKey ensures LiveIsFold(rt', d) {
        assert LiveIsFold(rt, d);
        OtherToolsMoveNoDomain(rt, op, d);
      }
      OtherToolsMoveNoDomain(rt, op, DomainKey("", ""));
    }
  }

  lemma NewRuntimeAgrees()
    ensures Agrees(NEW_RUNTIME)
  {
    assert forall d: DomainKey :: LiveIsFold(NEW_RUNTIME, d);
  }

  /** Every reachable runtime is sequential and agrees with its own log. */
  lemma {:induction false} RunAgrees(ops: seq<Op>)
    ensures Sequential(Run(ops).store)
    ensures Agrees(Run(ops))
  {
    hide Step, Agrees, Sequential;
    if ops == [] {
      NewRuntimeAgrees();
      assert Sequential(EMPTY_STORE) by { EmptyIsSequential(); }
    } else {
      RunAgrees(ops[..|ops| - 1]);
      StepKeepsSequential(Run(ops[..|ops| - 1]), ops[|ops| - 1]);
      StepKeepsAgrees(Run(ops[..|ops| - 1]), ops[|ops| - 1]);
    }
  }

  lemma EmptyIsSequential()
    ensures Sequential(EMPTY_STORE)
  {
  }

  // ----- recovery -----

  /** Two runtimes over the same store that behave the same in every domain. */
  ghost predicate Equivalent(a: RuntimeState, b: RuntimeState) {
    a.store == b.store && forall d: DomainKey :: DomainOf(a.domains, d) == DomainOf(b.domains, d)
  }

  /** Startup from the store of an agreeing runtime succeeds and rebuilds every domain. */
  lemma AgreeingRecovers(rt: RuntimeState)
    requires Agrees(rt)
    ensures Recovers(rt.store)
    ensures Equivalent(Recovered(rt.store), rt)
  {
    hide StateVersion, RecoverLog, FoldDomain, EventsFor, Faithful, FaithfulLog;
    InterleavedPassIsFolds(rt.store.events);
    var r := RecoverLog(rt.store.events).value;
    forall d: DomainKey
      ensures d in r.versions ==> StateVersion(r.versions[d]) == StateVersion(StateCounter(rt.store.versions, d))
      ensures DomainOf(r.domains, d) == DomainOf(rt.domains, d)
    {
      assert LiveIsFold(rt, d);
      PassKnows(rt.store, d);
    }
  }

  /** Crash-free restart: reopening the store of any run rebuilds the runtime that wrote it. */
  lemma RunRecovers(ops: seq<Op>)
    ensures Recovers(Run(ops).store)
    ensures Equivalent(Recovered(Run(ops).store), Run(ops))
  {
    hide Run, Recovers, Recovered, Agrees, Equivalent;
    RunAgrees(ops);
    AgreeingRecovers(Run(ops));
  }

  // ----- from any store, not only those that runs from nothing reach -----

  /** Startup succeeds and, beyond what startup checks, every domain replays. */
  ghost predicate Sound(s: StoreState) {
    Recovers(s) && forall d: DomainKey :: ReplayTool(s, d).replayMatch
  }

  /** A runtime recovered from a sound store agrees with its log. */
  lemma SoundAgrees(s: StoreState)
    requires Sound(s)
    ensures Agrees(Recovered(s))
  {
    hide RecoverLog, FaithfulLog, FoldDomain, EventsFor, ReplayTool, HasInput;
    assert FaithfulLog(s.events) by { InterleavedPassIsFolds(s.events); }
    forall d: DomainKey ensures LiveIsFold(Recovered(s), d) {
      RecoveredHoldsFolds(s, d);
      FaithfulDomainReplays(s, d);
    }
  }

  /** The store of an agreeing runtime is sound. */
  lemma AgreeingIsSound(rt: RuntimeState)
    requires Agrees(rt)
    ensures Sound(rt.store)
  {
    hide Recovers, FaithfulLog, FoldDomain, EventsFor, ScanReplay, StateVersion;
    AgreeingRecovers(rt);
    forall d: DomainKey ensures ReplayTool(rt.store, d).replayMatch {
      assert LiveIsFold(rt, d);
      FaithfulDomainReplays(rt.store, d);
    }
  }

  lemma {:induction false} RunFromAgrees(start: RuntimeState, ops: seq<Op>)
    requires Agrees(start)
    ensures Agrees(RunFrom(start, ops))
  {
    hide Step, Agrees;
    if ops != [] {
      RunFromAgrees(start, ops[..|ops| - 1]);
      StepKeepsAgrees(RunFrom(start, ops[..|ops| - 1]), ops[|ops| - 1]);
    }
  }

  /**
   The event that an observation after startup logs is faithful exactly when the
   domain's version was the folded one.
   */
  lemma RecoveredObserves(s: StoreState, p: ObserveParams)
    requires Recovers(s) && p.InRange()
    ensures var e := ObservedEvent(Recovered(s), p); var t := FoldDomain(EventsFor(s.events, p.domain));
      && e.domain == p.domain && e.replay.Some?
      && (Faithful(s.events, e) <==> StateCounter(s.versions, p.domain) == t.version)
      && (StateCounter(s.versions, p.domain) == t.version ==>
            Advanced(t, e).version == StateCounter(ObserveTool(Recovered(s), p).0.store.versions, p.domain))
  {
    hide EventHeader, NewLines, RenderChanges, StateVersion, EventId, ObserveDomain, Rejudge, FoldDomain, EventsFor,
      Recovers, Recovered, InputFor;
    var rt, e, t := Recovered(s), ObservedEvent(Recovered(s), p), FoldDomain(EventsFor(s.events, p.domain));
    RecoveredHoldsFolds(s, p.domain);
    assert rt.store == s by { RecoveredKeepsStore(s); }
    StoredInputRejudges(rt, p);
    assert Rejudge(t, e) == ObserveDomain(t.domain, p);
    var outcome := ObserveDomain(t.domain, p).1;
    AdvanceMovesOneKey(s.versions, p.domain, p.domain);
    StateVersionInjective(Bumped(StateCounter(s.versions, p.domain), outcome), Bumped(t.version, outcome));
  }

  lemma RecoveredKeepsStore(s: StoreState)
    requires Recovers(s)
    ensures Recovered(s).store == s
  {
  }

  /**
   One step after startup: the first observation in a domain leaves a store that
   starts again exactly when the recorded version it found was the folded one.
   */
  lemma ObserveKeepsStartup(s: StoreState, p: ObserveParams)
    requires Recovers(s) && p.InRange()
    ensures Recovers(ObserveTool(Recovered(s), p).0.store)
       <==> StateCounter(s.versions, p.domain) == FoldDomain(EventsFor(s.events, p.domain)).version
  {
    var rt, e := Recovered(s), ObservedEvent(Recovered(s), p);
    var s' := ObserveTool(rt, p).0.store;
    RecoveredObserves(s, p);
    assert s'.events == s.events + [e];
    FaithfulSnoc(s.events, e);
    InterleavedPassIsFolds(s.events);
    InterleavedPassIsFolds(s'.events);
    if Faithful(s.events, e) {
      assert FaithfulLog(s'.events);
      hide RecoverLog, FaithfulLog, Faithful, FoldDomain, EventsFor, HasInput, ReplayTool, ObservedEvent, StateVersion;
      forall d: DomainKey | HasInput(s'.events, d) ensures ReplayTool(s', d).replayMatch {
        EventsForSnoc(s.events, e, d);
        FoldSnoc(EventsFor(s.events, d), e);
        InputSnoc(s.events, e, d);
        RecoveredHoldsFolds(s, d);
        if d != p.domain { ObserveMovesOneDomain(rt, p, d); }
        FaithfulDomainReplays(s', d);
      }
      FaithfulIsInert(s'.events);
      RecoveryAgreesWithReplay(s');
    }
  }

  lemma FaithfulIsInert(events: seq<StoredEvent>)
    requires FaithfulLog(events)
    ensures InputlessAreInert(events)
  {
    hide Reproduced;
    forall i | 0 <= i < |events| && events[i].replay.None? ensures events[i].transitions == [] {
      assert Faithful(events[..i], events[i]);
    }
  }

  /** Equivalent runtimes answer every call alike and stay equivalent. */
  lemma StepRespectsEquivalence(a: RuntimeState, b: RuntimeState, op: Op)
    requires Equivalent(a, b)
    ensures Step(a, op).1 == Step(b, op).1
    ensures Equivalent(Step(a, op).0, Step(b, op).0)
  {
    hide EventHeader, NewLines, RenderChanges, ObserveDomain, StateVersion, OutcomeId, DecisionId, EventId, CausalChain,
      DecisionTrail, ScanReplay, FindDecision, InputFor;
    match op
    case ObserveOp(p) =>
      assert DomainOf(a.domains, p.domain) == DomainOf(b.domains, p.domain);
      if p.InRange() {
        assert ObservedEvent(a, p) == ObservedEvent(b, p);
        forall d: DomainKey ensures DomainOf(Step(a, op).0.domains, d) == DomainOf(Step(b, op).0.domains, d) {
          assert DomainOf(a.domains, d) == DomainOf(b.domains, d);
        }
      }
    case DecideOp(p) =>
      assert DomainOf(a.domains, p.domain) == DomainOf(b.domains, p.domain);
      assert DecisionRecord(a, p) == DecisionRecord(b, p);
      forall d: DomainKey ensures DomainOf(Step(a, op).0.domains, d) == DomainOf(Step(b, op).0.domains, d) {
        assert DomainOf(a.domains, d) == DomainOf(b.domains, d);
      }
    case _ =>
  }

  // ----- replay -----

  /** The observe calls the runtime accepted in one domain. */
  function Accepted(ops: seq<Op>, d: DomainKey): nat {
    if ops == [] then 0
    else Accepted(ops[..|ops| - 1], d) + if AcceptedIn(ops[|ops| - 1], d) then 1 else 0
  }

  predicate AcceptedIn(op: Op, d: DomainKey) {
    op.ObserveOp? && op.observe.domain == d && op.observe.beyondScope <= 1_000_000
      && op.observe.destructive <= 1_000_000
  }

  lemma StepLogsEvent(rt: RuntimeState, op: Op, d: DomainKey)
    ensures EventsFor(Step(rt, op).0.store.events, d)
         == if AcceptedIn(op, d) then EventsFor(rt.store.events, d) + [ObservedEvent(rt, op.observe)]
            else EventsFor(rt.store.events, d)
  {
    hide ObserveDomain, DecideTool, OutcomeTool, ReplayTool, ExplainTool, EventHeader, NewLines, RenderChanges,
      StateVersion, EventId, InputFor;
    if op.ObserveOp? && op.observe.InRange() {
      EventsForSnoc(rt.store.events, ObservedEvent(rt, op.observe), d);
    } else if !op.ObserveOp? {
      OtherToolsMoveNoDomain(rt, op, d);
    }
  }

  lemma {:induction false} OneEventPerAcceptedObserve(ops: seq<Op>, d: DomainKey)
    ensures |EventsFor(Run(ops).store.events, d)| == Accepted(ops, d)
    ensures Inputs(EventsFor(Run(ops).store.events, d)) == Accepted(ops, d)
  {
    hide Step, ObservedEvent;
    if ops != [] {
      var front, op := ops[..|ops| - 1], ops[|ops| - 1];
      OneEventPerAcceptedObserve(front, d);
      StepLogsEvent(Run(front), op, d);
      if AcceptedIn(op, d) {
        var e := ObservedEvent(Run(front), op.observe);
        ObservedEventHasInput(Run(front), op.observe, d);
        assert (EventsFor(Run(front).store.events, d) + [e])[..|EventsFor(Run(front).store.events, d)|]
          == EventsFor(Run(front).store.events, d);
      }
    }
  }

  lemma ObservedEventHasInput(rt: RuntimeState, p: ObserveParams, d: DomainKey)
    requires AcceptedIn(ObserveOp(p), d)
    ensures ObservedEvent(rt, p).replay.Some?
  {
  }

  /** Every reachable runtime replays, in every domain, event by event. */
  lemma ReachableReplays(ops: seq<Op>, d: DomainKey)
    ensures var v := StateVersion(StateCounter(Run(ops).store.versions, d));
      ReplayTool(Run(ops).store, d) == Replayed(true, v, v, Accepted(ops, d), None)
  {
    hide Run, Faithful, FaithfulLog, FoldDomain, EventsFor, StateVersion;
    var s := Run(ops).store;
    RunAgrees(ops);
    assert LiveIsFold(Run(ops), d);
    FaithfulDomainReplays(s, d);
    OneEventPerAcceptedObserve(ops, d);
    StateVersionInjective(StateCounter(s.versions, d), ScanReplay(EventsFor(s.events, d)).version);
  }
}
