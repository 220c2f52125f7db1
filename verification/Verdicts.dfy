/**
 The closed form of every verdict: in any run a domain is denied exactly when
 some earlier successful observation in it was strong, whatever happened
 elsewhere, and exactly then its version is 1.
 */
module Verdicts {
  import opened Wrappers
  import opened Admission
  import opened GovernanceKernel
  import opened KernelHistory
  import opened Store
  import opened Runtime
  import opened Recovery
  import opened Reachable

  /** A successful observation of `d` with a score at or above the strong threshold. */
  predicate StrongIn(op: Op, d: DomainKey) {
    AcceptedIn(op, d) && (op.observe.beyondScope >= 900_000 || op.observe.destructive >= 900_000)
  }

  ghost predicate SuspendedBy(ops: seq<Op>, d: DomainKey) {
    exists i | 0 <= i < |ops| :: StrongIn(ops[i], d)
  }

  /** Without overrides the three protective phases move together, and authorization moves once. */
  predicate Uniform(k: Kernel) {
    && (k.state.trust.TrustWarning? <==> k.state.authorization.AuthorizationSuspended?)
    && (k.state.delegation.DelegationDegraded? <==> k.state.authorization.AuthorizationSuspended?)
    && k.state.supervision.None?
    && k.counters.authorization == (if k.state.authorization.AuthorizationSuspended? then 1 else 0)
  }

  /** What the runtime projects from a domain is what its kernel holds, and the version counts the one suspension. */
  predicate Settled(ds: DomainState, version: nat) {
    && Coherent(ds.kernel)
    && Uniform(ds.kernel)
    && ds.projected == KernelDecision(ds.kernel)
    && ds.governing == ds.kernel.governing
    && version == (if ds.kernel.state.authorization.AuthorizationSuspended? then 1 else 0)
  }

  lemma CandidateSettles(
    p: Pass, eventId: string, kind: EvidenceKind, confidence: Ppm, context: AdmissionContext, previous: Option<string>)
    requires Uniform(p.kernel)
    requires LastAuthorization(p.changes, previous) == p.kernel.governing
    ensures var p' := ObserveCandidate(p, eventId, kind, confidence, context);
      && Uniform(p'.kernel)
      && LastAuthorization(p'.changes, previous) == p'.kernel.governing
      && (p'.kernel.state.authorization.AuthorizationSuspended?
          <==> p.kernel.state.authorization.AuthorizationSuspended? || Admit(kind, confidence, context).Accept?)
      && (p'.changes == [] <==> p.changes == [] && p'.kernel.state.authorization == p.kernel.state.authorization)
  {
    hide CandidateLine, KernelId;
    var p' := ObserveCandidate(p, eventId, kind, confidence, context);
    if Admit(kind, confidence, context).Accept? && p.kernel.state.authorization.AuthorizationActive? {
      var n := |p'.changes| - 1;
      assert p'.changes[n].relation == Authorization && p'.kernel.governing == Some(p'.changes[n].id);
    } else {
      assert p'.changes == p.changes;
    }
  }

  lemma JudgeSettles(ds: DomainState, version: nat, j: Judgment, context: AdmissionContext, nextVtick: nat)
    requires Settled(ds, version)
    ensures var (ds', outcome) := JudgeDomain(ds, j, context, nextVtick);
      && Settled(ds', Bumped(version, outcome))
      && (ds'.kernel.state.authorization.AuthorizationSuspended?
          <==> ds.kernel.state.authorization.AuthorizationSuspended? || AcceptsEvidence(j, context))
  {
    hide ObserveCandidate, DecisionLine, KernelId;
    var (k0, eventId) := Bump(ds.kernel, Event);
    var p0 := Pass(k0, [], [], false);
    CandidateSettles(p0, eventId, BeyondScope, j.beyondScope, context, ds.governing);
    var p1 := ObserveCandidate(p0, eventId, BeyondScope, j.beyondScope, context);
    CandidateSettles(p1, eventId, DestructiveAction, j.destructive, context, ds.governing);
    ObserveEffect(ds.kernel, j, context);
  }

  lemma ObserveSettles(ds: DomainState, version: nat, p: ObserveParams)
    requires p.InRange() && Settled(ds, version)
    ensures var (ds', outcome) := ObserveDomain(ds, p);
      && Settled(ds', Bumped(version, outcome))
      && (ds'.kernel.state.authorization.AuthorizationSuspended?
          <==> ds.kernel.state.authorization.AuthorizationSuspended? || StrongIn(ObserveOp(p), p.domain))
  {
    hide JudgeDomain, Settled;
    JudgeSettles(ds, version, JudgmentFor(p), Demo(ds.nextVtick), ds.nextVtick + 1);
  }

  /** Whatever a log says, folding it leaves a settled domain. */
  lemma {:induction false} FoldSettles(events: seq<StoredEvent>)
    ensures Settled(FoldDomain(events).domain, FoldDomain(events).version)
  {
    if events == [] {
      FreshSettles();
    } else {
      hide JudgeDomain, Settled;
      var t, e := FoldDomain(events[..|events| - 1]), events[|events| - 1];
      FoldSettles(events[..|events| - 1]);
      if Replayable(e) {
        JudgeSettles(t.domain, t.version, JudgmentOf(e), ContextOf(e), Max(t.domain.nextVtick, ContextOf(e).now + 1));
      }
    }
  }

  lemma FreshSettles()
    ensures Settled(FRESH, 0)
  {
  }

  /** So every domain of a runtime that agrees with its log is settled. */
  lemma AgreeingSettles(rt: RuntimeState, d: DomainKey)
    requires Agrees(rt)
    ensures SettledIn(rt, d)
  {
    hide Settled, FoldDomain, EventsFor, FaithfulLog;
    assert LiveIsFold(rt, d);
    FoldSettles(EventsFor(rt.store.events, d));
  }

  ghost predicate SettledIn(rt: RuntimeState, d: DomainKey) {
    Settled(DomainOf(rt.domains, d), StateCounter(rt.store.versions, d))
  }

  lemma SuspendedBySnoc(ops: seq<Op>, op: Op, d: DomainKey)
    ensures SuspendedBy(ops + [op], d) <==> SuspendedBy(ops, d) || StrongIn(op, d)
  {
    var all := ops + [op];
    if StrongIn(op, d) { assert StrongIn(all[|ops|], d); }
    if SuspendedBy(ops, d) {
      var i :| 0 <= i < |ops| && StrongIn(ops[i], d);
      assert StrongIn(all[i], d);
    }
  }

  lemma StepSettles(rt: RuntimeState, op: Op, d: DomainKey)
    requires SettledIn(rt, d)
    ensures var rt' := Step(rt, op).0;
      && SettledIn(rt', d)
      && (DomainOf(rt'.domains, d).kernel.state.authorization.AuthorizationSuspended?
          <==> DomainOf(rt.domains, d).kernel.state.authorization.AuthorizationSuspended? || StrongIn(op, d))
  {
    hide ObserveDomain, ObservedEvent, DecideTool, OutcomeTool, ReplayTool, ExplainTool, Settled;
    if op.ObserveOp? && op.observe.domain == d && op.observe.InRange() {
      ObserveSettles(DomainOf(rt.domains, d), StateCounter(rt.store.versions, d), op.observe);
      AdvanceMovesOneKey(rt.store.versions, d, d);
    } else if op.ObserveOp? && op.observe.InRange() {
      ObserveMovesOneDomain(rt, op.observe, d);
    } else if !op.ObserveOp? {
      OtherToolsMoveNoDomain(rt, op, d);
    }
  }

  /** In this runtime the domain's authorization is suspended. */
  predicate SuspendedIn(rt: RuntimeState, d: DomainKey) {
    DomainOf(rt.domains, d).kernel.state.authorization.AuthorizationSuspended?
  }

  /**
   From any runtime that agrees with its log: suspended exactly when it was, or some
   accepted observation was strong.
   */
  lemma {:induction false} SuspensionFrom(start: RuntimeState, ops: seq<Op>, d: DomainKey)
    requires Agrees(start)
    ensures SettledIn(RunFrom(start, ops), d)
    ensures SuspendedIn(RunFrom(start, ops), d) <==> SuspendedIn(start, d) || SuspendedBy(ops, d)
  {
    hide Step, SuspendedBy, StrongIn, Settled, Agrees;
    if ops == [] {
      AgreeingSettles(start, d);
      assert !SuspendedBy([], d) by { NothingSuspends(d); }
    } else {
      var front, op := ops[..|ops| - 1], ops[|ops| - 1];
      SuspensionFrom(start, front, d);
      StepSettles(RunFrom(start, front), op, d);
      SuspendedBySnoc(front, op, d);
      assert front + [op] == ops;
    }
  }

  lemma NothingSuspends(d: DomainKey)
    ensures !SuspendedIn(NEW_RUNTIME, d) && !SuspendedBy([], d)
  {
  }

  /** After any run, in any domain: suspended exactly when some accepted observation was strong. */
  lemma SuspensionClosedForm(ops: seq<Op>, d: DomainKey)
    ensures SettledIn(Run(ops), d)
    ensures DomainOf(Run(ops).domains, d).kernel.state.authorization.AuthorizationSuspended? <==> SuspendedBy(ops, d)
  {
    hide SuspendedBy, Settled, RunFrom, Agrees;
    NewRuntimeAgrees();
    NothingSuspends(d);
    SuspensionFrom(NEW_RUNTIME, ops, d);
  }

  /** What a decide call in a settled domain answers. */
  lemma SettledVerdict(rt: RuntimeState, p: DecideParams)
    requires SettledIn(rt, p.domain)
    ensures var suspended := SuspendedIn(rt, p.domain); var r := Step(rt, DecideOp(p)).1;
      && r.Ok?
      && r.value.decision == (if suspended then "DENY" else "ALLOW")
      && r.value.humanReview == suspended
      && r.value.reasonCode == (if suspended then "AUTHORIZATION_SUSPENDED" else "AUTHORIZATION_ACTIVE")
      && r.value.stateVersion == StateVersion(if suspended then 1 else 0)
      && r.value.governingRelations
         == if suspended then [GoverningRelation(KernelId(Authorization, 1), AuthorizationSuspended)] else []
  {
    hide StateVersion, KernelId, DecisionTrail, CausalChain, DecisionId;
  }

  /** The verdict of any decide call after any run, with the version it reports and the relation it names. */
  lemma VerdictClosedForm(ops: seq<Op>, p: DecideParams)
    ensures var suspended := SuspendedBy(ops, p.domain); var r := Step(Run(ops), DecideOp(p)).1;
      && r.Ok?
      && r.value.decision == (if suspended then "DENY" else "ALLOW")
      && r.value.humanReview == suspended
      && r.value.reasonCode == (if suspended then "AUTHORIZATION_SUSPENDED" else "AUTHORIZATION_ACTIVE")
      && r.value.stateVersion == StateVersion(if suspended then 1 else 0)
      && r.value.governingRelations
         == if suspended then [GoverningRelation(KernelId(Authorization, 1), AuthorizationSuspended)] else []
  {
    hide Run, Step, StateVersion, KernelId, SuspendedBy, Settled;
    SuspensionClosedForm(ops, p.domain);
    SettledVerdict(Run(ops), p);
  }

  lemma RenderedLength(changes: seq<RelationChange>)
    ensures |RenderChanges(changes)| == |changes|
  {
    hide RenderChange;
  }

  /**
   The answer to any observation after any run: refused exactly when a score is
   out of range, and otherwise reporting transitions exactly when this very
   observation is the domain's first strong one.
   */
  lemma ObserveClosedForm(ops: seq<Op>, p: ObserveParams)
    ensures var r := Step(Run(ops), ObserveOp(p)).1;
      && (r.Err? <==> p.beyondScope > 1_000_000 || p.destructive > 1_000_000)
      && (r.Ok? ==>
            && r.value.eventId == EventId(|Run(ops).store.events| + 1)
            && r.value.stateVersion == StateVersion(if SuspendedBy(ops + [ObserveOp(p)], p.domain) then 1 else 0)
            && (r.value.transitions != [] <==> !SuspendedBy(ops, p.domain) && StrongIn(ObserveOp(p), p.domain)))
  {
    hide Run, Sequential, SuspendedBy, StateVersion, EventId, EventHeader, NewLines, RenderChanges, ObserveDomain,
      InputFor, Coherent, Uniform;
    if p.InRange() {
      var d := p.domain;
      RunAgrees(ops);
      EventCountIsLength(Run(ops).store);
      SuspensionClosedForm(ops, d);
      SuspendedBySnoc(ops, ObserveOp(p), d);
      ObserveSettles(DomainOf(Run(ops).domains, d), StateCounter(Run(ops).store.versions, d), p);
      AdvanceMovesOneKey(Run(ops).store.versions, d, d);
      RenderedLength(ObserveDomain(DomainOf(Run(ops).domains, d), p).1.changes);
    }
  }

  lemma EventCountIsLength(s: StoreState)
    requires Sequential(s)
    ensures s.eventCounter == |s.events|
  {
  }

  lemma SuspendedByGrows(ops: seq<Op>, more: seq<Op>, d: DomainKey)
    requires SuspendedBy(ops, d)
    ensures SuspendedBy(ops + more, d)
  {
    var i :| 0 <= i < |ops| && StrongIn(ops[i], d);
    assert StrongIn((ops + more)[i], d);
  }

  /**
   Suspension is absorbing: once a run has suspended a domain's kernel, it stays
   suspended and at version 1 after any later operations, and every later decide
   call in the domain is answered with a denial.
   */
  lemma SuspensionIsAbsorbing(ops: seq<Op>, more: seq<Op>, p: DecideParams)
    requires DomainOf(Run(ops).domains, p.domain).kernel.state.authorization.AuthorizationSuspended?
    ensures DomainOf(Run(ops + more).domains, p.domain).kernel.state.authorization.AuthorizationSuspended?
    ensures StateCounter(Run(ops + more).store.versions, p.domain) == 1
    ensures var r := Step(Run(ops + more), DecideOp(p)).1;
      r.Ok? && r.value.decision == "DENY" && r.value.stateVersion == StateVersion(1)
  {
    hide Run, Step, StateVersion, SuspendedBy, Coherent, Uniform;
    SuspensionClosedForm(ops, p.domain);
    SuspendedByGrows(ops, more, p.domain);
    SuspensionClosedForm(ops + more, p.domain);
    VerdictClosedForm(ops + more, p);
  }

  // ----- evidence -----

  /** A domain's clock, counters and provenance count its own accepted observations. */
  lemma {:induction false} DomainClock(ops: seq<Op>, d: DomainKey)
    ensures var ds := DomainOf(Run(ops).domains, d); var n := Accepted(ops, d);
      && ds.nextVtick == n + 1
      && ds.kernel.counters.event == n
      && ds.kernel.counters.evidence == 2 * n
      && |ds.kernel.provenance| == 3 * n
  {
    hide ObservedEvent, Observe, DecideTool, OutcomeTool, ReplayTool, ExplainTool;
    if ops != [] {
      var front, op := ops[..|ops| - 1], ops[|ops| - 1];
      DomainClock(front, d);
      if AcceptedIn(op, d) {
        var ds := DomainOf(Run(front).domains, d);
        ObserveEffect(ds.kernel, JudgmentFor(op.observe), Demo(ds.nextVtick));
      } else if !op.ObserveOp? {
        OtherToolsMoveNoDomain(Run(front), op, d);
      }
    }
  }

  /** What the policy says of a score under the context the runtime binds. */
  function ScoreVerdict(score: Ppm): AdmissionDecision {
    if score >= 900_000 then Accept(Strong)
    else if score >= 600_000 then Hold
    else Reject(InsufficientSupport)
  }

  lemma DemoScores(kind: EvidenceKind, score: Ppm, now: nat)
    requires kind.IsSupported()
    ensures Admit(kind, score, Demo(now)) == ScoreVerdict(score)
  {
  }

  /**
   The evidence any accepted observation reports after any run: two records
   numbered within the domain, each score with a verdict that depends on nothing else.
   */
  lemma EvidenceClosedForm(ops: seq<Op>, p: ObserveParams)
    requires p.InRange()
    ensures var r := Step(Run(ops), ObserveOp(p)).1; var n := Accepted(ops, p.domain);
      && r.Ok?
      && r.value.evidence == [
        EvidenceRecord(KernelId(Evidence, 2 * n + 1), BeyondScope, p.beyondScope, ScoreVerdict(p.beyondScope),
          POLICY_VERSION),
        EvidenceRecord(KernelId(Evidence, 2 * n + 2), DestructiveAction, p.destructive, ScoreVerdict(p.destructive),
          POLICY_VERSION)]
      && ObservedEvent(Run(ops), p).kernelEventId == KernelId(Event, n + 1)
  {
    hide Run, KernelId, Observe, EventHeader, NewLines, RenderChanges, StateVersion, EventId, InputFor, Admit,
      ScoreVerdict, Demo, VersionsAfter;
    DomainClock(ops, p.domain);
    var ds := DomainOf(Run(ops).domains, p.domain);
    DemoScores(BeyondScope, p.beyondScope, ds.nextVtick);
    DemoScores(DestructiveAction, p.destructive, ds.nextVtick);
    EvidenceIsExact(ds.kernel, JudgmentFor(p), Demo(ds.nextVtick));
  }
}
