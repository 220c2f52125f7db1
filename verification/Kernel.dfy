/**
 The governance kernel: relation phases, id counters, a provenance log and the
 authorization currently in force. `Kernel` and its functions are the
 specification; the class `Governance` updates the same state in place and is
 proved against them.
 */
module GovernanceKernel {
  import opened Wrappers
  import opened Rendering
  import opened Admission

  datatype TrustPhase = TrustActive | TrustWarning
  datatype DelegationPhase = DelegationActive | DelegationDegraded
  datatype AuthorizationPhase = AuthorizationActive | AuthorizationSuspended

  datatype Supervision = Supervision(supervisor: string, createdBy: string)

  datatype GovernanceState = GovernanceState(
    trust: TrustPhase,
    delegation: DelegationPhase,
    authorization: AuthorizationPhase,
    supervision: Option<Supervision>)

  datatype Decision = Allow | Deny
  {
    function Name(): string {
      if Allow? then "ALLOW" else "DENY"
    }
  }

  /** The six id families; the last four are also the relations of the graph. */
  datatype Kind = Event | Evidence | Trust | Delegation | Authorization | Supervised
  {
    function Prefix(): string {
      match this
      case Event => "ev"
      case Evidence => "evidence"
      case Trust => "trust"
      case Delegation => "delegation"
      case Authorization => "authorization"
      case Supervised => "supervision"
    }

    function RelationName(): string {
      match this
      case Event => "Event"
      case Evidence => "Evidence"
      case Trust => "Trust"
      case Delegation => "Delegation"
      case Authorization => "Authorization"
      case Supervised => "Supervision"
    }
  }

  function KernelId(kind: Kind, n: nat): string {
    Id(kind.Prefix(), n, 4)
  }

  datatype Counters = Counters(event: nat, evidence: nat, trust: nat, delegation: nat, authorization: nat,
    supervision: nat)
  {
    function Of(kind: Kind): nat {
      match kind
      case Event => event
      case Evidence => evidence
      case Trust => trust
      case Delegation => delegation
      case Authorization => authorization
      case Supervised => supervision
    }

    function Next(kind: Kind): Counters {
      match kind
      case Event => this.(event := event + 1)
      case Evidence => this.(evidence := evidence + 1)
      case Trust => this.(trust := trust + 1)
      case Delegation => this.(delegation := delegation + 1)
      case Authorization => this.(authorization := authorization + 1)
      case Supervised => this.(supervision := supervision + 1)
    }
  }

  datatype Judgment = Judgment(
    provider: string, subject: string, scope: string, task: string, tool: string, intent: string,
    beyondScope: Ppm, destructive: Ppm)

  /** The five transitions the rule pack can emit, rendered only when a change is stored. */
  datatype Transition = ActiveToWarning | ActiveToDegraded | ActiveToSuspended | SuspendedToActive | Created
  {
    function Text(): string {
      match this
      case ActiveToWarning => "Active -> Warning"
      case ActiveToDegraded => "Active -> Degraded"
      case ActiveToSuspended => "Active -> Suspended"
      case SuspendedToActive => "Suspended -> Active"
      case Created => "created"
    }
  }

  datatype RelationChange = RelationChange(id: string, relation: Kind, transition: Transition, causedBy: string)

  /** The five fixed sentences an outcome gives as its reason. */
  datatype Reason = StateChanged | AdmittedStaysSuspended | SuspendedEarlier | StaysActive | HumanRestored

  datatype EvidenceRecord = EvidenceRecord(
    id: string, kind: EvidenceKind, confidence: Ppm, decision: AdmissionDecision, policyVersion: string)

  /** One governance event and everything it changed. */
  datatype Outcome = Outcome(
    eventId: string,
    evidence: seq<EvidenceRecord>,
    reason: Reason,
    changes: seq<RelationChange>,
    decision: Decision,
    action: string)

  datatype Kernel = Kernel(
    state: GovernanceState,
    counters: Counters,
    provenance: seq<string>,
    governing: Option<string>)

  const DEFAULT_STATE := GovernanceState(TrustActive, DelegationActive, AuthorizationActive, None)
  const NEW_KERNEL := Kernel(DEFAULT_STATE, Counters(0, 0, 0, 0, 0, 0), [], None)

  // ----- specification of one step -----

  /** Allocates the next id of `kind`. */
  function Bump(k: Kernel, kind: Kind): (Kernel, string) {
    var c := k.counters.Next(kind);
    (k.(counters := c), KernelId(kind, c.Of(kind)))
  }

  function Emit(k: Kernel, kind: Kind, transition: Transition, causedBy: string): (Kernel, RelationChange) {
    var (k', id) := Bump(k, kind);
    (k', RelationChange(id, kind, transition, causedBy))
  }

  function WarnTrust(k: Kernel, cause: string): (Kernel, seq<RelationChange>) {
    if k.state.trust == TrustWarning then (k, [])
    else
      var (k', c) := Emit(k.(state := k.state.(trust := TrustWarning)), Trust, ActiveToWarning, cause);
      (k', [c])
  }

  function DegradeDelegation(k: Kernel, cause: string): (Kernel, seq<RelationChange>) {
    if k.state.delegation == DelegationDegraded then (k, [])
    else
      var (k', c) := Emit(k.(state := k.state.(delegation := DelegationDegraded)), Delegation, ActiveToDegraded, cause);
      (k', [c])
  }

  function SuspendAuthorization(k: Kernel, cause: string): (Kernel, seq<RelationChange>) {
    if k.state.authorization == AuthorizationSuspended then (k, [])
    else
      var (k', c) := Emit(k.(state := k.state.(authorization := AuthorizationSuspended)), Authorization,
        ActiveToSuspended, cause);
      (k'.(governing := Some(c.id)), [c])
  }

  function RestoreAuthorization(k: Kernel, cause: string): (Kernel, seq<RelationChange>) {
    if k.state.authorization == AuthorizationActive then (k, [])
    else
      var (k', c) := Emit(k.(state := k.state.(authorization := AuthorizationActive)), Authorization, SuspendedToActive,
        cause);
      (k'.(governing := Some(c.id)), [c])
  }

  function CreateSupervision(k: Kernel, supervisor: string, cause: string): (Kernel, seq<RelationChange>) {
    if k.state.supervision.Some? then (k, [])
    else
      var (k', c) := Emit(k, Supervised, Created, cause);
      (k'.(state := k'.state.(supervision := Some(Supervision(supervisor, cause)))), [c])
  }

  /** The rule pack: the protective chain that accepted evidence drives. */
  function ApplyEvidence(k: Kernel, evidenceId: string): (Kernel, seq<RelationChange>) {
    var (k1, c1) := WarnTrust(k, evidenceId);
    var (k2, c2) := DegradeDelegation(k1, evidenceId);
    var (k3, c3) := SuspendAuthorization(k2, evidenceId);
    (k3, c1 + c2 + c3)
  }

  function Arrows(changes: seq<RelationChange>): string {
    if changes == [] then ""
    else Arrows(changes[..|changes| - 1]) + " -> " + changes[|changes| - 1].id
  }

  function CandidateLine(
    eventId: string, evidenceId: string, kind: EvidenceKind, admission: AdmissionDecision,
      local: seq<RelationChange>): string
  {
    eventId + " -> " + evidenceId + "[" + kind.Name() + ":" + admission.Render() + "]" + Arrows(local)
  }

  function DecisionLine(eventId: string, governing: Option<string>, decision: Decision, tool: string): string {
    eventId + (if governing.Some? then " [via " + governing.value + "]" else "")
    + " -> " + decision.Name() + "(" + tool + ")"
  }

  function OverrideLine(eventId: string, changes: seq<RelationChange>, action: string): string {
    eventId + Arrows(changes) + " -> ALLOW(" + action + ")"
  }

  /** What the candidate loop has accumulated so far. */
  datatype Pass = Pass(kernel: Kernel, evidence: seq<EvidenceRecord>, changes: seq<RelationChange>, acceptedAny: bool)

  function ObserveCandidate(p: Pass, eventId: string, kind: EvidenceKind, confidence: Ppm,
      context: AdmissionContext): Pass {
    var (k1, evidenceId) := Bump(p.kernel, Evidence);
    var admission := Admit(kind, confidence, context);
    var (k2, local) := if admission.Accept? then ApplyEvidence(k1, evidenceId) else (k1, []);
    var line := CandidateLine(eventId, evidenceId, kind, admission, local);
    Pass(
      k2.(provenance := k2.provenance + [line]),
      p.evidence + [EvidenceRecord(evidenceId, kind, confidence, admission, POLICY_VERSION)],
      p.changes + local,
      p.acceptedAny || admission.Accept?)
  }

  function KernelDecision(k: Kernel): Decision {
    if k.state.authorization == AuthorizationActive then Allow else Deny
  }

  function ReasonFor(p: Pass): Reason {
    if p.acceptedAny && p.changes != [] then StateChanged
    else if p.acceptedAny && p.kernel.state.authorization == AuthorizationSuspended then
      AdmittedStaysSuspended
    else if p.kernel.state.authorization == AuthorizationSuspended then
      SuspendedEarlier
    else StaysActive
  }

  function Observe(k: Kernel, j: Judgment, context: AdmissionContext): (Kernel, Outcome) {
    var (k0, eventId) := Bump(k, Event);
    var p1 := ObserveCandidate(Pass(k0, [], [], false), eventId, BeyondScope, j.beyondScope, context);
    var p := ObserveCandidate(p1, eventId, DestructiveAction, j.destructive, context);
    var decision := KernelDecision(p.kernel);
    var line := DecisionLine(eventId, p.kernel.governing, decision, j.tool);
    (p.kernel.(provenance := p.kernel.provenance + [line]),
     Outcome(eventId, p.evidence, ReasonFor(p), p.changes, decision, j.tool))
  }

  function Override(k: Kernel, supervisor: string, action: string): (Kernel, Outcome) {
    var (k0, eventId) := Bump(k, Event);
    var (k1, c1) := RestoreAuthorization(k0, eventId);
    var (k2, c2) := CreateSupervision(k1, supervisor, eventId);
    var line := OverrideLine(eventId, c1 + c2, action);
    (k2.(provenance := k2.provenance + [line]),
     Outcome(eventId, [], HumanRestored, c1 + c2, Allow, action))
  }

  // ----- the mutable kernel -----

  class Governance {
    var state: GovernanceState
    var counters: Counters
    var provenance: seq<string>
    var governing: Option<string>

    ghost function View(): Kernel
      reads this
    {
      Kernel(state, counters, provenance, governing)
    }

    constructor ()
      ensures View() == NEW_KERNEL
    {
      state := DEFAULT_STATE;
      counters := Counters(0, 0, 0, 0, 0, 0);
      provenance := [];
      governing := None;
    }

    method NextId(kind: Kind) returns (id: string)
      modifies this`counters
      ensures (View(), id) == Bump(old(View()), kind)
    {
      counters := counters.Next(kind);
      id := KernelId(kind, counters.Of(kind));
    }

    method NewChange(kind: Kind, transition: Transition, causedBy: string) returns (change: RelationChange)
      modifies this`counters
      ensures (View(), change) == Emit(old(View()), kind, transition, causedBy)
    {
      var id := NextId(kind);
      change := RelationChange(id, kind, transition, causedBy);
    }

    method ApplyAdmittedEvidence(evidenceId: string, kind: EvidenceKind) returns (changes: seq<RelationChange>)
      requires kind.IsSupported()
      modifies this
      ensures (View(), changes) == ApplyEvidence(old(View()), evidenceId)
    {
      ghost var (k1, c1) := WarnTrust(View(), evidenceId);
      ghost var (k2, c2) := DegradeDelegation(k1, evidenceId);
      ghost var (k3, c3) := SuspendAuthorization(k2, evidenceId);
      changes := [];
      if state.trust != TrustWarning {
        state := state.(trust := TrustWarning);
        var change := NewChange(Trust, ActiveToWarning, evidenceId);
        changes := changes + [change];
      }
      assert View() == k1 && changes == c1;
      if state.delegation != DelegationDegraded {
        state := state.(delegation := DelegationDegraded);
        var change := NewChange(Delegation, ActiveToDegraded, evidenceId);
        changes := changes + [change];
      }
      assert View() == k2 && changes == c1 + c2;
      if state.authorization != AuthorizationSuspended {
        state := state.(authorization := AuthorizationSuspended);
        var change := NewChange(Authorization, ActiveToSuspended, evidenceId);
        governing := Some(change.id);
        changes := changes + [change];
      }
      assert View() == k3 && changes == c1 + c2 + c3;
    }

    /** One turn of the candidate loop. */
    method ObserveOne(eventId: string, kind: EvidenceKind, confidence: Ppm, context: AdmissionContext,
        ghost before: Pass)
      returns (record: EvidenceRecord, local: seq<RelationChange>)
      requires kind.IsSupported()
      requires before.kernel == View()
      modifies this
      ensures var after := ObserveCandidate(before, eventId, kind, confidence, context);
        && View() == after.kernel
        && after.evidence == before.evidence + [record]
        && after.changes == before.changes + local
        && after.acceptedAny == (before.acceptedAny || record.decision.Accept?)
    {
      var evidenceId := NextId(Evidence);
      var admission := Admit(kind, confidence, context);
      local := [];
      if admission.Accept? {
        local := ApplyAdmittedEvidence(evidenceId, kind);
      }
      var line := eventId + " -> " + evidenceId + "[" + kind.Name() + ":" + admission.Render() + "]";
      line := AppendArrows(line, local);
      provenance := provenance + [line];
      record := EvidenceRecord(evidenceId, kind, confidence, admission, POLICY_VERSION);
    }

    method ObserveJudgment(j: Judgment, context: AdmissionContext) returns (outcome: Outcome)
      modifies this
      ensures (View(), outcome) == Observe(old(View()), j, context)
    {
      hide ObserveCandidate, DecisionLine;
      var eventId := NextId(Event);
      ghost var p0 := Pass(View(), [], [], false);
      ghost var p1 := ObserveCandidate(p0, eventId, BeyondScope, j.beyondScope, context);
      ghost var p2 := ObserveCandidate(p1, eventId, DestructiveAction, j.destructive, context);
      var candidates := [(BeyondScope, j.beyondScope), (DestructiveAction, j.destructive)];
      var evidence: seq<EvidenceRecord>, allChanges: seq<RelationChange>, acceptedAny := [], [], false;
      for i := 0 to |candidates|
        invariant Pass(View(), evidence, allChanges, acceptedAny) == if i == 0 then p0 else if i == 1 then p1 else p2
      {
        var (kind, confidence) := candidates[i];
        var record, local := ObserveOne(eventId, kind, confidence, context,
          Pass(View(), evidence, allChanges, acceptedAny));
        acceptedAny := acceptedAny || record.decision.Accept?;
        allChanges := allChanges + local;
        evidence := evidence + [record];
      }
      var decision := if state.authorization == AuthorizationActive then Allow else Deny;
      var reason :=
        if acceptedAny && allChanges != [] then StateChanged
        else if acceptedAny && state.authorization == AuthorizationSuspended then
          AdmittedStaysSuspended
        else if state.authorization == AuthorizationSuspended then
          SuspendedEarlier
        else StaysActive;
      var line := RenderDecision(eventId, governing, decision, j.tool);
      provenance := provenance + [line];
      outcome := Outcome(eventId, evidence, reason, allChanges, decision, j.tool);
    }

    method HumanOverride(supervisor: string, action: string) returns (outcome: Outcome)
      modifies this
      ensures (View(), outcome) == Override(old(View()), supervisor, action)
    {
      var eventId := NextId(Event);
      ghost var (k1, c1) := RestoreAuthorization(View(), eventId);
      ghost var (k2, c2) := CreateSupervision(k1, supervisor, eventId);
      var changes: seq<RelationChange> := [];
      if state.authorization != AuthorizationActive {
        state := state.(authorization := AuthorizationActive);
        var change := NewChange(Authorization, SuspendedToActive, eventId);
        governing := Some(change.id);
        changes := changes + [change];
      }
      assert View() == k1 && changes == c1;
      if state.supervision.None? {
        var change := NewChange(Supervised, Created, eventId);
        state := state.(supervision := Some(Supervision(supervisor, eventId)));
        changes := changes + [change];
      }
      assert View() == k2 && changes == c1 + c2;
      var line := AppendArrows(eventId, changes);
      line := line + " -> ALLOW(" + action + ")";
      provenance := provenance + [line];
      outcome := Outcome(eventId, [], HumanRestored, changes, Allow, action);
    }
  }

  method AppendArrows(start: string, changes: seq<RelationChange>) returns (line: string)
    ensures line == start + Arrows(changes)
  {
    line := start;
    for i := 0 to |changes|
      invariant line == start + Arrows(changes[..i])
    {
      assert changes[..i + 1][..i] == changes[..i];
      line := line + " -> " + changes[i].id;
    }
    assert changes[..|changes|] == changes;
  }

  method RenderDecision(eventId: string, governing: Option<string>, decision: Decision, tool: string)
      returns (line: string)
    ensures line == DecisionLine(eventId, governing, decision, tool)
  {
    line := eventId;
    if governing.Some? {
      line := line + " [via " + governing.value + "]";
    }
    line := line + " -> " + decision.Name() + "(" + tool + ")";
  }
}
