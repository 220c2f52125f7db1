/**
 What a run leaves on record, written out: every field of every stored event and
 decision, and what `explain` answers, from the calls alone.
 */
module RunRecords {
  import opened Wrappers
  import opened Rendering
  import opened Admission
  import opened GovernanceKernel
  import opened KernelHistory
  import opened Store
  import opened Runtime
  import opened Reachable
  import opened Verdicts
  import opened Explanations
  import opened RuntimeBinding
  import opened LogForm

  // ----- events -----

  /** The calls of a run that stored an event, in any domain. */
  function AllAccepted(ops: seq<Op>): nat {
    if ops == [] then 0
    else AllAccepted(ops[..|ops| - 1]) + if Stores(ops[|ops| - 1]) then 1 else 0
  }

  predicate Stores(op: Op) {
    op.ObserveOp? && op.observe.beyondScope <= 1_000_000 && op.observe.destructive <= 1_000_000
  }

  lemma StepStores(rt: RuntimeState, op: Op)
    ensures |Step(rt, op).0.store.events| == |rt.store.events| + if Stores(op) then 1 else 0
  {
    hide ObserveDomain, ObservedEvent, ReplayTool, ExplainTool, DecisionRecord, FindDecision, StateVersion, OutcomeId;
  }

  lemma {:induction false} EventsAreCounted(ops: seq<Op>)
    ensures |Run(ops).store.events| == AllAccepted(ops)
  {
    hide Step, Stores;
    if ops != [] {
      EventsAreCounted(ops[..|ops| - 1]);
      StepStores(Run(ops[..|ops| - 1]), ops[|ops| - 1]);
    }
  }

  /** What the policy is logged to say of a score under the context the runtime binds. */
  function ScoreText(score: nat): string {
    if score >= 900_000 then "Accept(Strong)"
    else if score >= 600_000 then "Hold(NeedsCorroborationOrReview)"
    else "Reject(InsufficientSupport)"
  }

  const CHAIN_TEXT: string := " -> " + "trust-0001"
    + (" -> " + "delegation-0001" + (" -> " + "authorization-0001" + ""))

  function EvidenceText(event: string, evidence: string, kind: string, score: nat, suspends: bool): string {
    event + " -> " + evidence + "[" + kind + ":" + ScoreText(score) + "]" + if suspends then CHAIN_TEXT else ""
  }

  /** The four lines of the event that observation `p` stores as the domain's `n + 1`st. */
  function EventLines(eventId: string, p: ObserveParams, n: nat, suspended: bool): seq<string> {
    var event := "ev-" + Padded(n + 1, 4);
    var byScope := !suspended && p.beyondScope >= 900_000;
    var byHarm := !suspended && p.beyondScope < 900_000 && p.destructive >= 900_000;
    var after := suspended || byScope || byHarm;
    [eventId + " [kernel_event=" + event + " domain=" + p.domain.subject + "/" + p.domain.scope + "]",
     EvidenceText(event, "evidence-" + Padded(2 * n + 1, 4), "BeyondScope", p.beyondScope, byScope),
     EvidenceText(event, "evidence-" + Padded(2 * n + 2, 4), "DestructiveAction", p.destructive, byHarm),
     event + (if after then " [via " + "authorization-0001" + "]" else "")
     + " -> " + (if after then "DENY" else "ALLOW") + "(" + p.action + ")"]
  }

  lemma FamilyTexts(n: nat)
    ensures KernelId(Event, n) == "ev-" + Padded(n, 4)
    ensures KernelId(Evidence, n) == "evidence-" + Padded(n, 4)
    ensures EventId(n) == "event-" + Padded(n, 6)
    ensures DecisionId(n) == "decision-" + Padded(n, 6)
    ensures OutcomeId(n) == "outcome-" + Padded(n, 6)
    ensures StateVersion(n) == "state-" + Padded(n, 6)
  {
    hide Padded;
  }

  lemma ScoreTexts(score: Ppm)
    ensures ScoreVerdict(score).Render() == ScoreText(score)
    ensures BeyondScope.Name() == "BeyondScope" && DestructiveAction.Name() == "DestructiveAction"
  {
  }

  /** The candidate line of a settled domain, written out. */
  lemma CandidateText(event: string, evidence: string, kind: EvidenceKind, score: Ppm, cause: string, suspends: bool)
    requires kind.IsSupported()
    ensures var chain := [RelationChange(KernelId(Trust, 1), Trust, ActiveToWarning, cause),
                          RelationChange(KernelId(Delegation, 1), Delegation, ActiveToDegraded, cause),
                          RelationChange(KernelId(Authorization, 1), Authorization, ActiveToSuspended, cause)];
      CandidateLine(event, evidence, kind, ScoreVerdict(score), if suspends then chain else [])
      == EvidenceText(
           event, evidence, if kind.BeyondScope? then "BeyondScope" else "DestructiveAction", score, suspends)
  {
    hide KernelId, ScoreVerdict, ScoreText, AdmissionDecision.Render, EvidenceKind.Name;
    RelationTexts();
    ScoreTexts(score);
    var a := RelationChange(KernelId(Trust, 1), Trust, ActiveToWarning, cause);
    var b := RelationChange(KernelId(Delegation, 1), Delegation, ActiveToDegraded, cause);
    var c := RelationChange(KernelId(Authorization, 1), Authorization, ActiveToSuspended, cause);
    ThreeLinks(a, b, c);
    ArrowsAreLinks([a, b, c]);
    ArrowsAreLinks([]);
  }

  lemma ThreeLinks(a: RelationChange, b: RelationChange, c: RelationChange)
    ensures Links([a, b, c]) == " -> " + a.id + (" -> " + b.id + (" -> " + c.id + ""))
    ensures Links([]) == ""
  {
    var three, two, one := [a, b, c], [b, c], [c];
    assert three[1..] == two && two[1..] == one && one[1..] == [];
    assert Links(one) == " -> " + c.id + "";
    assert Links(two) == " -> " + b.id + Links(one);
  }

  /** What judging observation `p` does and logs in a settled domain that has judged `n` before. */
  lemma SettledObservation(ds: DomainState, version: nat, p: ObserveParams, n: nat)
    requires p.InRange() && Settled(ds, version)
    requires ds.kernel.counters.event == n && ds.kernel.counters.evidence == 2 * n
    ensures var suspended := ds.kernel.state.authorization.AuthorizationSuspended?;
      var (ds', o) := ObserveDomain(ds, p);
      && NewLines(ds.kernel.provenance, ds'.kernel.provenance) == EventLines("", p, n, suspended)[1..]
      && o.eventId == "ev-" + Padded(n + 1, 4)
      && RenderChanges(o.changes)
         == (if !suspended && (p.beyondScope >= 900_000 || p.destructive >= 900_000) then SUSPENDING else [])
      && (o.changes == [] <==> suspended || (p.beyondScope < 900_000 && p.destructive < 900_000))
  {
    hide Observe, Settled, ChainFrom, CandidateLine, KernelId, Admit, ScoreVerdict, RenderChanges, EvidenceText, Padded,
      Coherent, Uniform, Decision.Name, DecisionLine, Demo;
    var suspended := ds.kernel.state.authorization.AuthorizationSuspended?;
    var k := ds.kernel;
    var j, context := JudgmentFor(p), Demo(ds.nextVtick);
    var (k', o) := Observe(k, j, context);
    var byScope := !suspended && p.beyondScope >= 900_000;
    var byHarm := !suspended && p.beyondScope < 900_000 && p.destructive >= 900_000;
    var first, second := KernelId(Evidence, 2 * n + 1), KernelId(Evidence, 2 * n + 2);
    DemoAdmits(p.beyondScope, ds.nextVtick);
    DemoAdmits(p.destructive, ds.nextVtick);
    DemoScores(BeyondScope, p.beyondScope, ds.nextVtick);
    DemoScores(DestructiveAction, p.destructive, ds.nextVtick);
    ObservationChanges(k, j, context);
    SettledChain(ds, version, first);
    SettledChain(ds, version, second);
    CandidateText(o.eventId, first, BeyondScope, p.beyondScope, first, byScope);
    CandidateText(o.eventId, second, DestructiveAction, p.destructive, second, byHarm);
    FamilyTexts(n + 1);
    FamilyTexts(2 * n + 1);
    FamilyTexts(2 * n + 2);
    SettledChanges(ds, version, j, context);
    SettledDecision(ds, version, p, o.eventId);
    assert k'.provenance[|k.provenance|..] == EventLines("", p, n, suspended)[1..];
  }

  lemma DemoAdmits(score: Ppm, now: nat)
    ensures Admissible(score, Demo(now)) <==> score >= 900_000
  {
  }

  lemma SettledDecision(ds: DomainState, version: nat, p: ObserveParams, event: string)
    requires p.InRange() && Settled(ds, version)
    ensures var (ds', o) := ObserveDomain(ds, p);
      var before := ds.kernel.state.authorization.AuthorizationSuspended?;
      var after := before || p.beyondScope >= 900_000 || p.destructive >= 900_000;
      DecisionLine(event, ds'.kernel.governing, o.decision, p.action)
      == event + (if after then " [via " + "authorization-0001" + "]" else "")
         + " -> " + (if after then "DENY" else "ALLOW") + "(" + p.action + ")"
  {
    hide Observe, KernelId;
    ObserveSettles(ds, version, p);
    ObservationDecides(ds, p);
    RelationTexts();
  }

  lemma ObservationDecides(ds: DomainState, p: ObserveParams)
    requires p.InRange()
    ensures var (ds', o) := ObserveDomain(ds, p); o.decision == KernelDecision(ds'.kernel)
  {
    hide ObserveCandidate, DecisionLine;
  }

  /**
   Every field of the event that an accepted observation stores after any run,
   from the calls of the run alone.
   */
  lemma ObservedEventClosedForm(ops: seq<Op>, p: ObserveParams)
    requires p.InRange()
    ensures var e := ObservedEvent(Run(ops), p); var n := Accepted(ops, p.domain);
      var before, after := SuspendedBy(ops, p.domain), SuspendedBy(ops + [ObserveOp(p)], p.domain);
      && e.eventId == "event-" + Padded(AllAccepted(ops) + 1, 6)
      && e.kernelEventId == "ev-" + Padded(n + 1, 4)
      && e.domain == p.domain
      && e.action == p.action
      && e.stateVersion == (if after then "state-000001" else "state-000000")
      && e.transitions == (if after && !before then SUSPENDING else [])
      && e.provenance == EventLines(e.eventId, p, n, before)
      && e.replay == Some(ReplayInput(p.provider, p.task, p.action, p.intent, p.beyondScope, p.destructive,
                                      850_000, 0, n + 1, n + 11, "0.1"))
  {
    hide Run, SettledIn, SuspendedBy, StrongIn, ObservedEvent, Padded, EventLines, Sequential, AllAccepted;
    var d, rt := p.domain, Run(ops);
    RunAgrees(ops);
    EventCountIsLength(rt.store);
    EventsAreCounted(ops);
    DomainClock(ops, d);
    SuspensionClosedForm(ops, d);
    SuspendedBySnoc(ops, ObserveOp(p), d);
    StrongHere(p);
    SettledEvent(rt, p, Accepted(ops, d));
  }

  /** The same from any settled domain that has judged `n` observations. */
  lemma SettledEvent(rt: RuntimeState, p: ObserveParams, n: nat)
    requires p.InRange() && SettledIn(rt, p.domain)
    requires var ds := DomainOf(rt.domains, p.domain);
      ds.nextVtick == n + 1 && ds.kernel.counters.event == n && ds.kernel.counters.evidence == 2 * n
    ensures var e := ObservedEvent(rt, p);
      var before := SuspendedIn(rt, p.domain);
      var after := before || p.beyondScope >= 900_000 || p.destructive >= 900_000;
      && e.eventId == "event-" + Padded(rt.store.eventCounter + 1, 6)
      && e.kernelEventId == "ev-" + Padded(n + 1, 4)
      && e.domain == p.domain
      && e.action == p.action
      && e.stateVersion == (if after then "state-000001" else "state-000000")
      && e.transitions == (if after && !before then SUSPENDING else [])
      && e.provenance == EventLines(e.eventId, p, n, before)
      && e.replay == Some(ReplayInput(p.provider, p.task, p.action, p.intent, p.beyondScope, p.destructive,
                                      850_000, 0, n + 1, n + 11, "0.1"))
  {
    hide Settled, ObserveDomain, NewLines, RenderChanges, Padded, StateVersion, EventLines, EventId, EventHeader;
    var d := p.domain;
    var ds, version := DomainOf(rt.domains, d), StateCounter(rt.store.versions, d);
    SettledObservation(ds, version, p, n);
    AdvanceMovesOneKey(rt.store.versions, d, d);
    VersionOfSettled(ds, version);
    VersionTexts();
    FamilyTexts(rt.store.eventCounter + 1);
    HeaderText(EventId(rt.store.eventCounter + 1), p, n, SuspendedIn(rt, d));
  }

  /** What the call itself answers: that event's id, transitions and version, and the evidence with its verdicts. */
  lemma ObserveAnswers(ops: seq<Op>, p: ObserveParams)
    requires p.InRange()
    ensures var r := Step(Run(ops), ObserveOp(p)).1; var n := Accepted(ops, p.domain);
      var before, after := SuspendedBy(ops, p.domain), SuspendedBy(ops + [ObserveOp(p)], p.domain);
      r == Ok(Observed(
        "event-" + Padded(AllAccepted(ops) + 1, 6),
        [EvidenceRecord("evidence-" + Padded(2 * n + 1, 4), BeyondScope, p.beyondScope, ScoreVerdict(p.beyondScope),
          "0.1"),
         EvidenceRecord("evidence-" + Padded(2 * n + 2, 4), DestructiveAction, p.destructive,
           ScoreVerdict(p.destructive), "0.1")],
        if after && !before then SUSPENDING else [],
        if after then "state-000001" else "state-000000"))
  {
    hide Run, SuspendedBy, ObserveDomain, ObservedEvent, Padded, EventLines, AllAccepted, Logged, KernelId,
      ScoreVerdict;
    ObservedEventClosedForm(ops, p);
    EvidenceClosedForm(ops, p);
    FamilyTexts(2 * Accepted(ops, p.domain) + 1);
    FamilyTexts(2 * Accepted(ops, p.domain) + 2);
  }

  lemma StrongHere(p: ObserveParams)
    requires p.InRange()
    ensures StrongIn(ObserveOp(p), p.domain) <==> p.beyondScope >= 900_000 || p.destructive >= 900_000
  {
  }

  lemma HeaderText(eventId: string, p: ObserveParams, n: nat, suspended: bool)
    ensures EventLines(eventId, p, n, suspended)
         == [EventHeader(eventId, "ev-" + Padded(n + 1, 4), p.domain)] + EventLines("", p, n, suspended)[1..]
  {
    hide Padded, EvidenceText;
  }

  /**
   The event log of a domain is the history of its accepted observations: the k-th
   event is what the k-th of them stored.
   */
  lemma {:induction false} EventLogIsHistory(ops: seq<Op>, i: nat, d: DomainKey)
    requires i < |ops| && AcceptedIn(ops[i], d)
    ensures Accepted(ops[..i], d) < |EventsFor(Run(ops).store.events, d)|
    ensures EventsFor(Run(ops).store.events, d)[Accepted(ops[..i], d)] == ObservedEvent(Run(ops[..i]), ops[i].observe)
  {
    hide ObservedEvent, Step, EventsFor;
    var front := ops[..|ops| - 1];
    assert front[..i] == ops[..i];
    StepLogsEvent(Run(front), ops[|ops| - 1], d);
    if i < |front| {
      EventLogIsHistory(front, i, d);
    } else {
      OneEventPerAcceptedObserve(front, d);
    }
  }

  // ----- decisions -----

  /** The last line of a decision's chain. */
  function TrailText(decisionId: string, p: DecideParams, suspended: bool): string {
    decisionId + " [domain=" + p.domain.subject + "/" + p.domain.scope + " state="
    + (if suspended then "state-000001" else "state-000000") + "]"
    + " -> " + (if suspended then "DENY" else "ALLOW") + "(" + p.action + ")"
  }

  /** Every field of the record that a decide call stores after any run, from the calls of the run alone. */
  lemma DecisionClosedForm(ops: seq<Op>, p: DecideParams)
    ensures var d := DecisionRecord(Run(ops), p); var suspended := SuspendedBy(ops, p.domain);
      var events := EventsFor(Run(ops).store.events, p.domain);
      && d.decisionId == "decision-" + Padded(Decides(ops) + 1, 6)
      && d.domain == p.domain
      && d.action == p.action
      && d.verdict == (if suspended then "DENY" else "ALLOW")
      && d.reasonCode == (if suspended then "AUTHORIZATION_SUSPENDED" else "AUTHORIZATION_ACTIVE")
      && d.governingRelation == (if suspended then Some("authorization-0001") else None)
      && d.stateVersion == (if suspended then "state-000001" else "state-000000")
      && |events| == Accepted(ops, p.domain)
      && |d.provenance| == 4 * |events| + 1
      && (forall j | 0 <= j < |events| :: |events[j].provenance| == 4)
      && (forall i | 0 <= i < 4 * |events| :: d.provenance[i] == events[i / 4].provenance[i % 4])
      && d.provenance[4 * |events|] == TrailText(d.decisionId, p, suspended)
  {
    hide Run, SuspendedBy, CausalChain, EventsFor, DecisionTrail, DecisionId, StateVersion, Padded, KernelId;
    CausalChainIsExact(ops, p);
    DecisionFields(ops, p);
    TrailIsText(DecisionRecord(Run(ops), p), p, SuspendedBy(ops, p.domain));
  }

  lemma DecisionFields(ops: seq<Op>, p: DecideParams)
    ensures var d := DecisionRecord(Run(ops), p); var suspended := SuspendedBy(ops, p.domain);
      && d.decisionId == "decision-" + Padded(Decides(ops) + 1, 6)
      && d.domain == p.domain
      && d.action == p.action
      && d.verdict == (if suspended then "DENY" else "ALLOW")
      && d.reasonCode == (if suspended then "AUTHORIZATION_SUSPENDED" else "AUTHORIZATION_ACTIVE")
      && d.governingRelation == (if suspended then Some("authorization-0001") else None)
      && d.stateVersion == (if suspended then "state-000001" else "state-000000")
  {
    hide RunFrom, SuspendedBy, CausalChain, EventsFor, DecisionTrail, DecisionId, StateVersion, Padded, KernelId,
      IssuedFrom;
    SuspensionClosedForm(ops, p.domain);
    DecisionsFrom(NEW_RUNTIME, ops);
    OneDecisionPerDecide(NEW_RUNTIME, ops);
    FamilyTexts(Decides(ops) + 1);
    VersionTexts();
    RelationTexts();
  }

  lemma TrailIsText(d: StoredDecision, p: DecideParams, suspended: bool)
    requires d.verdict == (if suspended then "DENY" else "ALLOW")
    requires d.stateVersion == (if suspended then "state-000001" else "state-000000")
    ensures DecisionTrail(d.decisionId, p.domain, d.stateVersion, d.verdict, p.action)
        == TrailText(d.decisionId, p, suspended)
  {
  }

  /**
   What `explain` answers, after any run, about any decide call of it: the
   verdict, reason, relation and version that the call's own past demands, and a
   summary that tells denials from allowances.
   */
  lemma ExplainedDecision(ops: seq<Op>, i: nat)
    requires i < |ops| && ops[i].DecideOp?
    ensures var p := ops[i].decide; var suspended := SuspendedBy(ops[..i], p.domain);
      var x := ExplainTool(Run(ops).store, "decision-" + Padded(Decides(ops[..i]) + 1, 6));
      && x.Ok? && x.value.Explained?
      && x.value.summary == (if suspended then WasDenied else WasAllowed)
      && var d := x.value.record;
      && d == DecisionRecord(Run(ops[..i]), p)
      && d.domain == p.domain && d.action == p.action
      && d.verdict == (if suspended then "DENY" else "ALLOW")
      && d.reasonCode == (if suspended then "AUTHORIZATION_SUSPENDED" else "AUTHORIZATION_ACTIVE")
      && d.governingRelation == (if suspended then Some("authorization-0001") else None)
      && d.stateVersion == (if suspended then "state-000001" else "state-000000")
  {
    hide RunFrom, SuspendedBy, DecisionRecord, FindDecision, Padded, DecisionId, Caller;
    DecisionFields(ops[..i], ops[i].decide);
    CallerIsFound(ops, i, DecisionRecord(Run(ops[..i]), ops[i].decide).decisionId);
  }
}
