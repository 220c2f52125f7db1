/** Explanations are exact when issued and permanent afterwards. */
module Explanations {
  import opened Wrappers
  import opened Admission
  import opened GovernanceKernel
  import opened KernelHistory
  import opened Store
  import opened Runtime
  import opened Reachable

  // ----- permanence -----

  lemma StepKeepsDecisions(rt: RuntimeState, op: Op)
    ensures rt.store.decisions <= Step(rt, op).0.store.decisions
  {
    hide ObservedEvent, ObserveDomain, ReplayTool, ExplainTool, DecisionRecord, StateVersion, OutcomeId;
  }

  lemma {:induction false} DecisionsAreAppendOnly(ops: seq<Op>, more: seq<Op>)
    ensures Run(ops).store.decisions <= Run(ops + more).store.decisions
  {
    if more == [] {
      assert ops + more == ops;
    } else {
      hide Step;
      var front := more[..|more| - 1];
      DecisionsAreAppendOnly(ops, front);
      assert (ops + more)[..|ops + more| - 1] == ops + front;
      StepKeepsDecisions(Run(ops + front), more[|more| - 1]);
    }
  }

  /** The record a decide call writes is the record `explain` returns, after any later operations. */
  lemma ExplanationsArePermanent(ops: seq<Op>, p: DecideParams, later: seq<Op>)
    ensures var issued := DecisionRecord(Run(ops), p);
      && Step(Run(ops), DecideOp(p)).1.Ok?
      && Step(Run(ops), DecideOp(p)).1.value.decisionId == issued.decisionId
      && ExplainTool(Run(ops + [DecideOp(p)] + later).store, issued.decisionId)
         == Ok(Explained(issued, if issued.verdict == "DENY" then WasDenied else WasAllowed))
  {
    hide Run, DecisionRecord, FindDecision, DecisionId, ObserveTool, OutcomeTool, ReplayTool;
    var s := Run(ops + [DecideOp(p)] + later).store;
    var issued := DecisionRecord(Run(ops), p);
    var k := |Run(ops).store.decisions|;
    DecideAppends(ops, p);
    DecisionsAreAppendOnly(ops + [DecideOp(p)], later);
    assert s.decisions[k] == issued;
    RunAgrees(ops + [DecideOp(p)] + later);
    FindIsExact(s.decisions, issued.decisionId);
  }

  lemma DecideAppends(ops: seq<Op>, p: DecideParams)
    ensures Run(ops + [DecideOp(p)]).store.decisions == Run(ops).store.decisions + [DecisionRecord(Run(ops), p)]
  {
    assert (ops + [DecideOp(p)])[..|ops|] == ops;
  }

  // ----- exactness -----

  /** The kernel lines an event carries, after its header. */
  function KernelLines(events: seq<StoredEvent>): seq<string> {
    if events == [] then []
    else
      KernelLines(events[..|events| - 1])
      + (if events[|events| - 1].provenance == [] then [] else events[|events| - 1].provenance[1..])
  }

  ghost predicate FourLines(events: seq<StoredEvent>) {
    forall i | 0 <= i < |events| :: |events[i].provenance| == 4
  }

  /** The chain is the events' own lines, one after the other and in their order. */
  lemma {:induction false} ChainIsLines(events: seq<StoredEvent>)
    requires FourLines(events)
    ensures |CausalChain(events)| == 4 * |events|
    ensures forall i | 0 <= i < 4 * |events| :: CausalChain(events)[i] == events[i / 4].provenance[i % 4]
  {
    if events != [] {
      var front, last := events[..|events| - 1], events[|events| - 1];
      ChainIsLines(front);
      forall i | 0 <= i < 4 * |events| ensures CausalChain(events)[i] == events[i / 4].provenance[i % 4] {
        if i < 4 * |front| {
          assert events[i / 4] == front[i / 4] && CausalChain(events)[i] == CausalChain(front)[i];
        } else {
          assert i / 4 == |front| && CausalChain(events)[i] == last.provenance[i - 4 * |front|];
        }
      }
    }
  }

  lemma ObservedEventLines(rt: RuntimeState, p: ObserveParams)
    requires p.InRange()
    ensures var lines := ObservedEvent(rt, p).provenance; var k := DomainOf(rt.domains, p.domain).kernel;
      && |lines| == 4
      && k.provenance + lines[1..] == ObserveDomain(DomainOf(rt.domains, p.domain), p).0.kernel.provenance
  {
    hide EventHeader, RenderChanges, StateVersion, EventId, InputFor, Observe;
    var ds := DomainOf(rt.domains, p.domain);
    ObserveEffect(ds.kernel, JudgmentFor(p), Demo(ds.nextVtick));
  }

  /** In every run the stored kernel slices of a domain concatenate to its kernel's own provenance. */
  lemma {:induction false} SlicesMakeProvenance(ops: seq<Op>, d: DomainKey)
    ensures FourLines(EventsFor(Run(ops).store.events, d))
    ensures KernelLines(EventsFor(Run(ops).store.events, d)) == DomainOf(Run(ops).domains, d).kernel.provenance
  {
    hide ObservedEvent, ObserveDomain, DecideTool, OutcomeTool, ReplayTool, ExplainTool, EventsFor;
    if ops == [] {
      assert EventsFor([], d) == [] by { EmptyLog(d); }
    } else {
      hide Step;
      SlicesMakeProvenance(ops[..|ops| - 1], d);
      StepSlices(Run(ops[..|ops| - 1]), ops[|ops| - 1], d);
    }
  }

  lemma LinesSnoc(events: seq<StoredEvent>, e: StoredEvent)
    requires |e.provenance| == 4
    ensures KernelLines(events + [e]) == KernelLines(events) + e.provenance[1..]
    ensures FourLines(events) ==> FourLines(events + [e])
  {
    assert (events + [e])[..|events|] == events;
  }

  lemma StepSlices(rt: RuntimeState, op: Op, d: DomainKey)
    requires FourLines(EventsFor(rt.store.events, d))
    requires KernelLines(EventsFor(rt.store.events, d)) == DomainOf(rt.domains, d).kernel.provenance
    ensures var rt' := Step(rt, op).0;
      && FourLines(EventsFor(rt'.store.events, d))
      && KernelLines(EventsFor(rt'.store.events, d)) == DomainOf(rt'.domains, d).kernel.provenance
  {
    hide ObservedEvent, ObserveDomain, DecideTool, OutcomeTool, ReplayTool, ExplainTool, EventsFor, FourLines,
      KernelLines, Logged;
    StepLogsEvent(rt, op, d);
    if AcceptedIn(op, d) {
      ObservedEventLines(rt, op.observe);
      LinesSnoc(EventsFor(rt.store.events, d), ObservedEvent(rt, op.observe));
    } else if !op.ObserveOp? {
      OtherToolsMoveNoDomain(rt, op, d);
    }
  }

  lemma EmptyLog(d: DomainKey)
    ensures EventsFor([], d) == []
  {
  }

  /**
   The causal chain of any issued decision: the provenance of exactly the
   domain's events recorded before it, in order, then one decision line.
   */
  lemma CausalChainIsExact(ops: seq<Op>, p: DecideParams)
    ensures var issued := DecisionRecord(Run(ops), p); var events := EventsFor(Run(ops).store.events, p.domain);
      && |events| == Accepted(ops, p.domain)
      && |issued.provenance| == 4 * Accepted(ops, p.domain) + 1
      && (forall j | 0 <= j < |events| :: |events[j].provenance| == 4)
      && (forall i | 0 <= i < 4 * |events| :: issued.provenance[i] == events[i / 4].provenance[i % 4])
      && issued.provenance[4 * Accepted(ops, p.domain)]
         == DecisionTrail(issued.decisionId, p.domain, issued.stateVersion, issued.verdict, p.action)
  {
    hide Run, DecisionTrail, StateVersion, DecisionId, EventsFor, CausalChain;
    SlicesMakeProvenance(ops, p.domain);
    OneEventPerAcceptedObserve(ops, p.domain);
    ChainIsLines(EventsFor(Run(ops).store.events, p.domain));
  }
}
