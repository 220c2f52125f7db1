/**
 Domain non-interference: what happens in one domain is what would have
 happened had the other domains never been used. Only store-wide ids differ.
 */
module NonInterference {
  import opened Wrappers
  import opened Rendering
  import opened GovernanceKernel
  import opened Store
  import opened Runtime
  import opened Recovery
  import opened Reachable

  /** The domain an operation addresses; explanations and outcomes address a decision id instead. */
  function About(op: Op): Option<DomainKey> {
    match op
    case ObserveOp(p) => Some(p.domain)
    case DecideOp(p) => Some(p.domain)
    case ReplayOp(d) => Some(d)
    case _ => None
  }

  function Only(ops: seq<Op>, d: DomainKey): seq<Op> {
    if ops == [] then []
    else Only(ops[..|ops| - 1], d) + if About(ops[|ops| - 1]) == Some(d) then [ops[|ops| - 1]] else []
  }

  /** An answer without the store-wide ids in it. */
  function Erase(r: Result<Response, RuntimeError>): Result<Response, RuntimeError> {
    if r.Err? then r
    else match r.value
      case Observed(_, evidence, transitions, v) => Ok(Observed("", evidence, transitions, v))
      case Decided(_, decision, code, relations, review, v) => Ok(Decided("", decision, code, relations, review, v))
      case Replayed(m, recorded, replayed, n, first) =>
        Ok(Replayed(m, recorded, replayed, n, if first.Some? then Some("") else None))
      case _ => r
  }

  /** The answers a run gives to the operations about `d`, in order. */
  function Answers(ops: seq<Op>, d: DomainKey): seq<Result<Response, RuntimeError>> {
    if ops == [] then []
    else
      var front, op := ops[..|ops| - 1], ops[|ops| - 1];
      Answers(front, d) + if About(op) == Some(d) then [Erase(Step(Run(front), op).1)] else []
  }

  /** A stored event without its store-wide id and the header line that quotes it. */
  function Core(e: StoredEvent): StoredEvent {
    e.(eventId := "", provenance := if e.provenance == [] then [] else e.provenance[1..])
  }

  function Cores(events: seq<StoredEvent>): seq<StoredEvent> {
    if events == [] then [] else Cores(events[..|events| - 1]) + [Core(events[|events| - 1])]
  }

  ghost predicate SameIn(a: RuntimeState, b: RuntimeState, d: DomainKey) {
    && DomainOf(a.domains, d) == DomainOf(b.domains, d)
    && StateCounter(a.store.versions, d) == StateCounter(b.store.versions, d)
    && Cores(EventsFor(a.store.events, d)) == Cores(EventsFor(b.store.events, d))
  }

  lemma CoresSnoc(events: seq<StoredEvent>, e: StoredEvent)
    ensures Cores(events + [e]) == Cores(events) + [Core(e)]
  {
    assert (events + [e])[..|events|] == events;
  }

  lemma {:induction false} CoresLength(events: seq<StoredEvent>)
    ensures |Cores(events)| == |events|
  {
    if events != [] {
      CoresLength(events[..|events| - 1]);
    }
  }

  /** Replaying reads nothing but the cores. */
  lemma {:induction false} ScanReadsCores(xs: seq<StoredEvent>, ys: seq<StoredEvent>)
    requires Cores(xs) == Cores(ys)
    ensures var a, b := ScanReplay(xs), ScanReplay(ys);
      a.(first := None) == b.(first := None) && (a.first.Some? <==> b.first.Some?)
    decreases |xs|
  {
    hide Observe, RenderChanges, StateVersion;
    CoresLength(xs);
    CoresLength(ys);
    if xs != [] {
      var x, y := xs[|xs| - 1], ys[|ys| - 1];
      assert Cores(xs)[..|Cores(xs)| - 1] == Cores(xs[..|xs| - 1]);
      assert Cores(ys)[..|Cores(ys)| - 1] == Cores(ys[..|ys| - 1]);
      assert Core(x) == Cores(xs)[|Cores(xs)| - 1] == Cores(ys)[|Cores(ys)| - 1] == Core(y);
      ScanReadsCores(xs[..|xs| - 1], ys[..|ys| - 1]);
      SameCoreScansAlike(ScanReplay(xs[..|xs| - 1]), ScanReplay(ys[..|ys| - 1]), x, y);
    }
  }

  lemma SameCoreScansAlike(a: ReplayScan, b: ReplayScan, x: StoredEvent, y: StoredEvent)
    requires a.(first := None) == b.(first := None) && (a.first.Some? <==> b.first.Some?)
    requires Core(x) == Core(y)
    ensures var a', b' := ScanEvent(a, x), ScanEvent(b, y);
      a'.(first := None) == b'.(first := None) && (a'.first.Some? <==> b'.first.Some?)
  {
    hide Observe, RenderChanges, StateVersion;
    assert x.replay == y.replay && x.domain == y.domain;
    assert x.kernelEventId == y.kernelEventId && x.stateVersion == y.stateVersion && x.transitions == y.transitions;
  }

  /** The event an observation stores has, apart from its id, a core the domain alone determines. */
  lemma ObservedCores(a: RuntimeState, b: RuntimeState, p: ObserveParams)
    requires p.InRange() && SameIn(a, b, p.domain)
    ensures Core(ObservedEvent(a, p)) == Core(ObservedEvent(b, p))
  {
    hide EventHeader, NewLines, RenderChanges, ObserveDomain, StateVersion, EventId, InputFor, Cores, EventsFor;
    var d := p.domain;
    AdvanceMovesOneKey(a.store.versions, d, d);
    AdvanceMovesOneKey(b.store.versions, d, d);
    var (ds', outcome) := ObserveDomain(DomainOf(a.domains, d), p);
    var lines := NewLines(DomainOf(a.domains, d).kernel.provenance, ds'.kernel.provenance);
    assert ObservedEvent(a, p).provenance[1..] == lines;
    assert ObservedEvent(b, p).provenance[1..] == lines;
  }

  lemma ObserveRespectsDomain(a: RuntimeState, b: RuntimeState, p: ObserveParams)
    requires SameIn(a, b, p.domain)
    ensures SameIn(ObserveTool(a, p).0, ObserveTool(b, p).0, p.domain)
    ensures Erase(ObserveTool(a, p).1) == Erase(ObserveTool(b, p).1)
  {
    hide ObservedEvent, ObserveDomain, Core, EventsFor, Cores;
    if p.InRange() {
      var d := p.domain;
      ObservedCores(a, b, p);
      EventFields(a, b, p);
      AdvanceMovesOneKey(a.store.versions, d, d);
      AdvanceMovesOneKey(b.store.versions, d, d);
      EventsForSnoc(a.store.events, ObservedEvent(a, p), d);
      EventsForSnoc(b.store.events, ObservedEvent(b, p), d);
      CoresSnoc(EventsFor(a.store.events, d), ObservedEvent(a, p));
      CoresSnoc(EventsFor(b.store.events, d), ObservedEvent(b, p));
    }
  }

  lemma EventFields(a: RuntimeState, b: RuntimeState, p: ObserveParams)
    requires p.InRange() && Core(ObservedEvent(a, p)) == Core(ObservedEvent(b, p))
    ensures ObservedEvent(a, p).domain == ObservedEvent(b, p).domain == p.domain
    ensures ObservedEvent(a, p).transitions == ObservedEvent(b, p).transitions
    ensures ObservedEvent(a, p).stateVersion == ObservedEvent(b, p).stateVersion
  {
    hide EventHeader, NewLines, RenderChanges, ObserveDomain, StateVersion, EventId, InputFor;
    var ca, cb := Core(ObservedEvent(a, p)), Core(ObservedEvent(b, p));
    assert ca.transitions == cb.transitions && ca.stateVersion == cb.stateVersion;
  }

  lemma StepRespectsDomain(a: RuntimeState, b: RuntimeState, op: Op, d: DomainKey)
    requires SameIn(a, b, d) && About(op) == Some(d)
    ensures SameIn(Step(a, op).0, Step(b, op).0, d)
    ensures Erase(Step(a, op).1) == Erase(Step(b, op).1)
  {
    hide ObserveTool, Cores, EventsFor, StateVersion, DecisionTrail, CausalChain, DecisionId, ScanReplay;
    match op
    case ObserveOp(p) => ObserveRespectsDomain(a, b, p);
    case DecideOp(p) =>
    case ReplayOp(_) => ScanReadsCores(EventsFor(a.store.events, d), EventsFor(b.store.events, d));
  }

  lemma StepIgnoresOtherDomains(rt: RuntimeState, op: Op, d: DomainKey)
    requires About(op) != Some(d)
    ensures SameIn(Step(rt, op).0, rt, d)
  {
    hide ObserveTool, Cores, EventsFor;
    if op.ObserveOp? {
      ObserveMovesOneDomain(rt, op.observe, d);
    } else {
      OtherToolsMoveNoDomain(rt, op, d);
    }
  }

  /** Over every run and every domain: same kernel, versions, events and answers as in the domain's own run. */
  lemma {:induction false} DomainsDoNotInterfere(ops: seq<Op>, d: DomainKey)
    ensures SameIn(Run(ops), Run(Only(ops, d)), d)
    ensures Answers(ops, d) == Answers(Only(ops, d), d)
  {
    hide Step, Erase, About, SameIn;
    if ops == [] {
      SameInItself(NEW_RUNTIME, d);
    } else {
      var front, op := ops[..|ops| - 1], ops[|ops| - 1];
      DomainsDoNotInterfere(front, d);
      if About(op) == Some(d) {
        StepRespectsDomain(Run(front), Run(Only(front, d)), op, d);
        assert (Only(front, d) + [op])[..|Only(front, d)|] == Only(front, d);
      } else {
        StepIgnoresOtherDomains(Run(front), op, d);
        assert Only(ops, d) == Only(front, d);
        SameInTransitive(Run(ops), Run(front), Run(Only(front, d)), d);
      }
    }
  }

  lemma SameInItself(a: RuntimeState, d: DomainKey)
    ensures SameIn(a, a, d)
  {
  }

  lemma SameInTransitive(a: RuntimeState, b: RuntimeState, c: RuntimeState, d: DomainKey)
    requires SameIn(a, b, d) && SameIn(b, c, d)
    ensures SameIn(a, c, d)
  {
  }

  /** Of two ids rendered under one prefix, the one with the smaller number parses to less, whatever their width. */
  lemma RenderedIdsIncrease(prefix: string, m: nat, n: nat, a: string, b: string)
    requires m < n && a == Id(prefix, m, 6) && b == Id(prefix, n, 6)
    ensures |prefix| < |a| && |prefix| < |b| && ParseId(prefix, a) < ParseId(prefix, b)
  {
    hide Id, ParseId;
    ParseRenderedId(prefix, m, 6);
    ParseRenderedId(prefix, n, 6);
  }

  lemma EventIdsIncrease(events: seq<StoredEvent>, i: nat, j: nat)
    requires SequentialEvents(events) && i < j < |events|
    ensures |"event"| < |events[i].eventId| && |"event"| < |events[j].eventId|
    ensures ParseId("event", events[i].eventId) < ParseId("event", events[j].eventId)
  {
    hide Id, ParseId;
    RenderedIdsIncrease("event", i + 1, j + 1, events[i].eventId, events[j].eventId);
  }

  lemma DecisionIdsIncrease(decisions: seq<StoredDecision>, i: nat, j: nat)
    requires SequentialDecisions(decisions) && i < j < |decisions|
    ensures |"decision"| < |decisions[i].decisionId| && |"decision"| < |decisions[j].decisionId|
    ensures ParseId("decision", decisions[i].decisionId) < ParseId("decision", decisions[j].decisionId)
  {
    hide Id, ParseId;
    RenderedIdsIncrease("decision", i + 1, j + 1, decisions[i].decisionId, decisions[j].decisionId);
  }

  lemma OutcomeIdsIncrease(outcomes: seq<StoredOutcome>, i: nat, j: nat)
    requires SequentialOutcomes(outcomes) && i < j < |outcomes|
    ensures |"outcome"| < |outcomes[i].outcomeId| && |"outcome"| < |outcomes[j].outcomeId|
    ensures ParseId("outcome", outcomes[i].outcomeId) < ParseId("outcome", outcomes[j].outcomeId)
  {
    hide Id, ParseId;
    RenderedIdsIncrease("outcome", i + 1, j + 1, outcomes[i].outcomeId, outcomes[j].outcomeId);
  }

  /** The store-wide ids increase strictly over the whole interleaving, whatever their width. */
  lemma IdsIncrease(ops: seq<Op>, i: nat, j: nat)
    requires i < j
    ensures var s := Run(ops).store;
      && (j < |s.events| ==>
            |"event"| < |s.events[i].eventId| && |"event"| < |s.events[j].eventId|
            && ParseId("event", s.events[i].eventId) < ParseId("event", s.events[j].eventId))
      && (j < |s.decisions| ==>
            |"decision"| < |s.decisions[i].decisionId| && |"decision"| < |s.decisions[j].decisionId|
            && ParseId("decision", s.decisions[i].decisionId) < ParseId("decision", s.decisions[j].decisionId))
      && (j < |s.outcomes| ==>
            |"outcome"| < |s.outcomes[i].outcomeId| && |"outcome"| < |s.outcomes[j].outcomeId|
            && ParseId("outcome", s.outcomes[i].outcomeId) < ParseId("outcome", s.outcomes[j].outcomeId))
  {
    hide Run, ParseId, Id, UniqueDomains, SequentialEvents, SequentialDecisions, SequentialOutcomes;
    RunAgrees(ops);
    var s := Run(ops).store;
    if j < |s.events| { EventIdsIncrease(s.events, i, j); }
    if j < |s.decisions| { DecisionIdsIncrease(s.decisions, i, j); }
    if j < |s.outcomes| { OutcomeIdsIncrease(s.outcomes, i, j); }
  }
}
