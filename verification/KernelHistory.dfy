/**
 Theorems about whole kernel histories: arbitrary sequences of observations and
 human overrides, starting from a new kernel.
 */
module KernelHistory {
  import opened Wrappers
  import opened Admission
  import opened GovernanceKernel

  datatype KernelOp =
    | Judged(judgment: Judgment, context: AdmissionContext)
    | Overridden(supervisor: string, action: string)

  function Apply(k: Kernel, op: KernelOp): (Kernel, Outcome) {
    match op
    case Judged(j, context) => Observe(k, j, context)
    case Overridden(supervisor, action) => Override(k, supervisor, action)
  }

  function After(ops: seq<KernelOp>): Kernel {
    if ops == [] then NEW_KERNEL else Apply(After(ops[..|ops| - 1]), ops[|ops| - 1]).0
  }

  /** Every relation change a history emits, in order. */
  function Log(ops: seq<KernelOp>): seq<RelationChange> {
    if ops == [] then []
    else Log(ops[..|ops| - 1]) + Apply(After(ops[..|ops| - 1]), ops[|ops| - 1]).1.changes
  }

  predicate AcceptsEvidence(j: Judgment, context: AdmissionContext) {
    Admissible(j.beyondScope, context) || Admissible(j.destructive, context)
  }

  predicate Accepting(op: KernelOp) {
    op.Judged? && AcceptsEvidence(op.judgment, op.context)
  }

  // ----- the state invariant -----

  predicate Coherent(k: Kernel) {
    && (k.state.authorization.AuthorizationSuspended?
        ==> k.state.trust.TrustWarning? && k.state.delegation.DelegationDegraded?)
    && k.counters.trust == (if k.state.trust.TrustWarning? then 1 else 0)
    && k.counters.delegation == (if k.state.delegation.DelegationDegraded? then 1 else 0)
    && k.counters.supervision == (if k.state.supervision.Some? then 1 else 0)
    && k.counters.authorization % 2 == (if k.state.authorization.AuthorizationSuspended? then 1 else 0)
    && k.governing == (if k.counters.authorization == 0 then None
        else Some(KernelId(Authorization, k.counters.authorization)))
  }

  /** What one candidate does to the kernel, apart from the text it logs. */
  lemma CandidateEffect(p: Pass, eventId: string, kind: EvidenceKind, confidence: Ppm, context: AdmissionContext)
    ensures var p' := ObserveCandidate(p, eventId, kind, confidence, context);
      && (Coherent(p.kernel) ==> Coherent(p'.kernel))
      && (p'.kernel.state.authorization.AuthorizationSuspended?
          <==> p.kernel.state.authorization.AuthorizationSuspended? || Admit(kind, confidence, context).Accept?)
      && p'.kernel.counters.event == p.kernel.counters.event
      && p'.kernel.counters.evidence == p.kernel.counters.evidence + 1
      && p.kernel.provenance <= p'.kernel.provenance
      && |p'.kernel.provenance| == |p.kernel.provenance| + 1
  {
    hide CandidateLine, KernelId, Admit;
  }

  /** What one observation does to the kernel, apart from the text it logs. */
  lemma ObserveEffect(k: Kernel, j: Judgment, context: AdmissionContext)
    ensures var k' := Observe(k, j, context).0;
      && (Coherent(k) ==> Coherent(k'))
      && (k'.state.authorization.AuthorizationSuspended?
          <==> k.state.authorization.AuthorizationSuspended? || AcceptsEvidence(j, context))
      && k'.counters.event == k.counters.event + 1
      && k'.counters.evidence == k.counters.evidence + 2
      && k.provenance <= k'.provenance
      && |k'.provenance| == |k.provenance| + 3
  {
    hide ObserveCandidate, DecisionLine, Admit, Admissible;
    PolicyIsExact(BeyondScope, j.beyondScope, context);
    PolicyIsExact(DestructiveAction, j.destructive, context);
    var (k0, eventId) := Bump(k, Event);
    var p0 := Pass(k0, [], [], false);
    CandidateEffect(p0, eventId, BeyondScope, j.beyondScope, context);
    CandidateEffect(ObserveCandidate(p0, eventId, BeyondScope, j.beyondScope, context), eventId, DestructiveAction,
      j.destructive, context);
  }

  lemma OverrideKeepsCoherent(k: Kernel, supervisor: string, action: string)
    requires Coherent(k)
    ensures Coherent(Override(k, supervisor, action).0)
    ensures Override(k, supervisor, action).0.state.authorization.AuthorizationActive?
  {
    hide OverrideLine, KernelId;
  }

  /** Some accepting observation came after the last override. */
  ghost predicate SuspendedByHistory(ops: seq<KernelOp>) {
    exists i :: 0 <= i < |ops| && Accepting(ops[i]) && NoOverrideAfter(ops, i)
  }

  ghost predicate NoOverrideAfter(ops: seq<KernelOp>, i: int) {
    forall j :: 0 <= j && i < j < |ops| ==> !ops[j].Overridden?
  }

  lemma ExtendHistory(ops: seq<KernelOp>, op: KernelOp)
    ensures SuspendedByHistory(ops + [op]) <==> Accepting(op) || (!op.Overridden? && SuspendedByHistory(ops))
  {
    hide Accepting;
    var all := ops + [op];
    if Accepting(op) {
      assert Accepting(all[|ops|]) && NoOverrideAfter(all, |ops|);
    }
    if !op.Overridden? && SuspendedByHistory(ops) {
      var i :| 0 <= i < |ops| && Accepting(ops[i]) && NoOverrideAfter(ops, i);
      assert Accepting(all[i]) && NoOverrideAfter(all, i);
    }
    if SuspendedByHistory(all) {
      var i :| 0 <= i < |all| && Accepting(all[i]) && NoOverrideAfter(all, i);
      if i < |ops| {
        assert !all[|ops|].Overridden?;
        assert forall j | i < j < |ops| :: ops[j] == all[j];
        assert Accepting(ops[i]) && NoOverrideAfter(ops, i);
      }
    }
  }

  lemma NothingHappened()
    ensures !SuspendedByHistory([])
  {
  }

  /** The history theorem: what the phases, the counters and the governing id are after any history. */
  lemma {:induction false} HistoryDecidesState(ops: seq<KernelOp>)
    ensures Coherent(After(ops))
    ensures After(ops).state.authorization.AuthorizationSuspended? <==> SuspendedByHistory(ops)
  {
    hide Observe, Override, KernelId, SuspendedByHistory;
    if ops == [] {
      assert !SuspendedByHistory([]) by { NothingHappened(); }
    }
    if ops != [] {
      var front, op := ops[..|ops| - 1], ops[|ops| - 1];
      HistoryDecidesState(front);
      ExtendHistory(front, op);
      assert front + [op] == ops;
      match op
      case Judged(j, context) => ObserveEffect(After(front), j, context);
      case Overridden(supervisor, action) => OverrideKeepsCoherent(After(front), supervisor, action);
    }
  }

  // ----- the transition log -----

  datatype Phases = Phases(trust: TrustPhase, delegation: DelegationPhase, authorization: AuthorizationPhase,
    supervised: bool)

  function PhasesOf(s: GovernanceState): Phases {
    Phases(s.trust, s.delegation, s.authorization, s.supervision.Some?)
  }

  /** Reads one rendered transition back; `None` when it does not start from the phase held. */
  function Follow(p: Option<Phases>, c: RelationChange): Option<Phases> {
    if p.None? then None
    else match c.relation
      case Trust =>
        if c.transition == ActiveToWarning && p.value.trust == TrustActive
        then Some(p.value.(trust := TrustWarning)) else None
      case Delegation =>
        if c.transition == ActiveToDegraded && p.value.delegation == DelegationActive
        then Some(p.value.(delegation := DelegationDegraded)) else None
      case Authorization =>
        if c.transition == ActiveToSuspended && p.value.authorization == AuthorizationActive
        then Some(p.value.(authorization := AuthorizationSuspended))
        else if c.transition == SuspendedToActive && p.value.authorization == AuthorizationSuspended
        then Some(p.value.(authorization := AuthorizationActive)) else None
      case Supervised =>
        if c.transition == Created && !p.value.supervised then Some(p.value.(supervised := true)) else None
      case _ => None
  }

  function Fold(log: seq<RelationChange>): Option<Phases> {
    if log == [] then Some(PhasesOf(DEFAULT_STATE)) else Follow(Fold(log[..|log| - 1]), log[|log| - 1])
  }

  function IdsOf(log: seq<RelationChange>, kind: Kind): seq<string> {
    if log == [] then []
    else IdsOf(log[..|log| - 1], kind) + if log[|log| - 1].relation == kind then [log[|log| - 1].id] else []
  }

  predicate IsRelation(kind: Kind) {
    kind != Event && kind != Evidence
  }

  /** The log explains the kernel: it folds to its phases, and each relation's ids run 1, 2, 3, ... */
  ghost predicate Explains(log: seq<RelationChange>, k: Kernel) {
    && Fold(log) == Some(PhasesOf(k.state))
    && forall kind | IsRelation(kind) ::
        && |IdsOf(log, kind)| == k.counters.Of(kind)
        && forall i | 0 <= i < k.counters.Of(kind) :: IdsOf(log, kind)[i] == KernelId(kind, i + 1)
  }

  lemma EmitExplains(log: seq<RelationChange>, k: Kernel, c: RelationChange, k': Kernel)
    requires Explains(log, k)
    requires IsRelation(c.relation)
    requires k'.counters == k.counters.Next(c.relation)
    requires c.id == KernelId(c.relation, k'.counters.Of(c.relation))
    requires Follow(Some(PhasesOf(k.state)), c) == Some(PhasesOf(k'.state))
    ensures Explains(log + [c], k')
  {
    hide KernelId, Fold, Follow, IdsOf;
    LogSnoc(log, c);
  }

  lemma LogSnoc(log: seq<RelationChange>, c: RelationChange)
    ensures Fold(log + [c]) == Follow(Fold(log), c)
    ensures forall kind {:trigger IdsOf(log + [c], kind)} ::
              IdsOf(log + [c], kind) == IdsOf(log, kind) + if c.relation == kind then [c.id] else []
  {
    assert (log + [c])[..|log|] == log;
  }

  lemma ApplyEvidenceExplains(log: seq<RelationChange>, k: Kernel, id: string)
    requires Explains(log, k)
    ensures Explains(log + ApplyEvidence(k, id).1, ApplyEvidence(k, id).0)
  {
    hide KernelId, Explains;
    var (k1, c1) := WarnTrust(k, id);
    var (k2, c2) := DegradeDelegation(k1, id);
    var (k3, c3) := SuspendAuthorization(k2, id);
    if c1 != [] { EmitExplains(log, k, c1[0], k1); } else { assert log + c1 == log; }
    if c2 != [] { EmitExplains(log + c1, k1, c2[0], k2); } else { assert log + c1 + c2 == log + c1; }
    if c3 != [] { EmitExplains(log + c1 + c2, k2, c3[0], k3); } else { assert log + c1 + c2 + c3 == log + c1 + c2; }
    assert log + (c1 + c2 + c3) == log + c1 + c2 + c3;
  }

  lemma CandidateExplains(
    log: seq<RelationChange>, p: Pass, eventId: string, kind: EvidenceKind, confidence: Ppm, context: AdmissionContext)
    requires Explains(log + p.changes, p.kernel)
    ensures var p' := ObserveCandidate(p, eventId, kind, confidence, context); Explains(log + p'.changes, p'.kernel)
  {
    hide KernelId, CandidateLine, ApplyEvidence, Admit;
    var (k1, id) := Bump(p.kernel, Evidence);
    var p' := ObserveCandidate(p, eventId, kind, confidence, context);
    assert Explains(log + p.changes, k1);
    if Admit(kind, confidence, context).Accept? {
      ApplyEvidenceExplains(log + p.changes, k1, id);
      assert log + p'.changes == log + p.changes + ApplyEvidence(k1, id).1;
    } else {
      assert log + p'.changes == log + p.changes;
    }
  }

  lemma ObserveExplains(log: seq<RelationChange>, k: Kernel, j: Judgment, context: AdmissionContext)
    requires Explains(log, k)
    ensures Explains(log + Observe(k, j, context).1.changes, Observe(k, j, context).0)
  {
    var (k0, eventId) := Bump(k, Event);
    var p0 := Pass(k0, [], [], false);
    assert log + p0.changes == log;
    CandidateExplains(log, p0, eventId, BeyondScope, j.beyondScope, context);
    var p1 := ObserveCandidate(p0, eventId, BeyondScope, j.beyondScope, context);
    CandidateExplains(log, p1, eventId, DestructiveAction, j.destructive, context);
  }

  /** The log explains a kernel by its phases and relation counters alone. */
  lemma SameExplained(log: seq<RelationChange>, k: Kernel, k': Kernel)
    requires PhasesOf(k.state) == PhasesOf(k'.state)
    requires forall kind | IsRelation(kind) :: k.counters.Of(kind) == k'.counters.Of(kind)
    ensures Explains(log, k) <==> Explains(log, k')
  {
    hide KernelId, Fold, IdsOf, PhasesOf;
  }

  lemma OverrideExplains(log: seq<RelationChange>, k: Kernel, supervisor: string, action: string)
    requires Explains(log, k)
    ensures Explains(log + Override(k, supervisor, action).1.changes, Override(k, supervisor, action).0)
  {
    hide KernelId, OverrideLine, Explains;
    var (k0, eventId) := Bump(k, Event);
    var (k1, c1) := RestoreAuthorization(k0, eventId);
    var (k2, c2) := CreateSupervision(k1, supervisor, eventId);
    SameExplained(log, k, k0);
    SameExplained(log + (c1 + c2), k2, Override(k, supervisor, action).0);
    if c1 != [] { EmitExplains(log, k0, c1[0], k1); } else { assert log + c1 == log; }
    if c2 != [] { EmitExplains(log + c1, k1, c2[0], k2); } else { assert log + c1 + c2 == log + c1; }
    assert log + (c1 + c2) == log + c1 + c2;
  }

  /** Completeness of the transition log, over every history. */
  lemma {:induction false} LogExplainsState(ops: seq<KernelOp>)
    ensures Explains(Log(ops), After(ops))
    ensures |IdsOf(Log(ops), Trust)| <= 1 && |IdsOf(Log(ops), Delegation)| <= 1 && |IdsOf(Log(ops), Supervised)| <= 1
  {
    hide Observe, Override, KernelId;
    if ops != [] {
      var front := ops[..|ops| - 1];
      LogExplainsState(front);
      match ops[|ops| - 1]
      case Judged(j, context) => ObserveExplains(Log(front), After(front), j, context);
      case Overridden(supervisor, action) => OverrideExplains(Log(front), After(front), supervisor, action);
    }
    HistoryDecidesState(ops);
  }

  // ----- causes and reasons -----

  /** Every logged change names, as its cause, evidence of this very observation that was accepted. */
  predicate NamesAccepted(changes: seq<RelationChange>, evidence: seq<EvidenceRecord>) {
    forall c | c in changes :: exists e | e in evidence :: e.id == c.causedBy && e.decision.Accept?
  }

  lemma CandidateNamesAccepted(p: Pass, eventId: string, kind: EvidenceKind, confidence: Ppm, context: AdmissionContext)
    requires NamesAccepted(p.changes, p.evidence)
    ensures var p' := ObserveCandidate(p, eventId, kind, confidence, context); NamesAccepted(p'.changes, p'.evidence)
    ensures var p' := ObserveCandidate(p, eventId, kind, confidence, context);
      (p'.acceptedAny <==> p.acceptedAny || Admit(kind, confidence, context).Accept?)
  {
    hide CandidateLine, KernelId, Admit;
    var p' := ObserveCandidate(p, eventId, kind, confidence, context);
    var record := p'.evidence[|p.evidence|];
    forall c | c in p'.changes ensures exists e | e in p'.evidence :: e.id == c.causedBy && e.decision.Accept? {
      if c in p.changes {
        var e :| e in p.evidence && e.id == c.causedBy && e.decision.Accept?;
        assert e in p'.evidence;
      } else {
        assert record in p'.evidence && record.id == c.causedBy && record.decision.Accept?;
      }
    }
  }

  /**
   Causes and reasons of any observation of a coherent kernel: changes name
   accepted evidence, nothing changes without acceptance, and the reason given
   tells the four situations apart exactly.
   */
  lemma ObservationIsExplained(k: Kernel, j: Judgment, context: AdmissionContext)
    requires Coherent(k)
    ensures var (k', o) := Observe(k, j, context); var suspended := k'.state.authorization.AuthorizationSuspended?;
      && NamesAccepted(o.changes, o.evidence)
      && (o.changes != [] ==> AcceptsEvidence(j, context))
      && (o.reason == StateChanged <==> o.changes != [])
      && (o.reason == AdmittedStaysSuspended <==> AcceptsEvidence(j, context) && o.changes == [])
      && (o.reason == SuspendedEarlier <==> !AcceptsEvidence(j, context) && suspended)
      && (o.reason == StaysActive <==> !AcceptsEvidence(j, context) && !suspended)
      && (o.decision == Deny <==> suspended)
  {
    ObserveEffect(k, j, context);
    hide ObserveCandidate, DecisionLine, KernelId, Admit, Admissible;
    PolicyIsExact(BeyondScope, j.beyondScope, context);
    PolicyIsExact(DestructiveAction, j.destructive, context);
    var (k0, eventId) := Bump(k, Event);
    var p0 := Pass(k0, [], [], false);
    CandidateNamesAccepted(p0, eventId, BeyondScope, j.beyondScope, context);
    var p1 := ObserveCandidate(p0, eventId, BeyondScope, j.beyondScope, context);
    CandidateNamesAccepted(p1, eventId, DestructiveAction, j.destructive, context);
    var p2 := ObserveCandidate(p1, eventId, DestructiveAction, j.destructive, context);
    if p2.changes != [] { assert p2.changes[0] in p2.changes; }
    OnlyAcceptanceChanges(p0, eventId, BeyondScope, j.beyondScope, context);
    OnlyAcceptanceChanges(p1, eventId, DestructiveAction, j.destructive, context);
  }

  lemma OnlyAcceptanceChanges(p: Pass, eventId: string, kind: EvidenceKind, confidence: Ppm, context: AdmissionContext)
    ensures !Admit(kind, confidence, context).Accept?
        ==> ObserveCandidate(p, eventId, kind, confidence, context).changes == p.changes
  {
    hide CandidateLine, KernelId;
  }

  // ----- conservation -----

  function Judgments(ops: seq<KernelOp>): nat {
    if ops == [] then 0 else Judgments(ops[..|ops| - 1]) + if ops[|ops| - 1].Judged? then 1 else 0
  }

  /** n observations and m overrides leave n + m event ids, 2n evidence ids and 3n + m provenance lines. */
  lemma {:induction false} HistoryCounts(ops: seq<KernelOp>)
    ensures Judgments(ops) <= |ops|
    ensures var n, m := Judgments(ops), |ops| - Judgments(ops);
      && After(ops).counters.event == n + m
      && After(ops).counters.evidence == 2 * n
      && |After(ops).provenance| == 3 * n + m
  {
    if ops != [] {
      hide Apply;
      HistoryCounts(ops[..|ops| - 1]);
      OpEffect(After(ops[..|ops| - 1]), ops[|ops| - 1]);
    }
  }

  /** One operation: an observation adds three provenance lines and two evidence ids, an override one line. */
  lemma OpEffect(k: Kernel, op: KernelOp)
    ensures var k' := Apply(k, op).0;
      && k'.counters.event == k.counters.event + 1
      && k'.counters.evidence == k.counters.evidence + (if op.Judged? then 2 else 0)
      && k.provenance <= k'.provenance
      && |k'.provenance| == |k.provenance| + (if op.Judged? then 3 else 1)
  {
    hide Observe, OverrideLine;
    if op.Judged? {
      ObserveEffect(k, op.judgment, op.context);
    }
  }

  // ----- what is recorded -----

  lemma CandidateRecord(p: Pass, eventId: string, kind: EvidenceKind, confidence: Ppm, context: AdmissionContext)
    ensures ObserveCandidate(p, eventId, kind, confidence, context).evidence
         == p.evidence + [EvidenceRecord(KernelId(Evidence, p.kernel.counters.evidence + 1), kind, confidence,
                                         Admit(kind, confidence, context), POLICY_VERSION)]
  {
    hide CandidateLine, KernelId, Admit, ApplyEvidence;
  }

  /** The evidence of one observation: the next two ids, each score with the policy's decision about it, in order. */
  lemma EvidenceIsExact(k: Kernel, j: Judgment, context: AdmissionContext)
    ensures var o := Observe(k, j, context).1; var n := k.counters.evidence;
      && o.eventId == KernelId(Event, k.counters.event + 1)
      && o.action == j.tool
      && o.evidence == [
        EvidenceRecord(KernelId(Evidence, n + 1), BeyondScope, j.beyondScope,
          Admit(BeyondScope, j.beyondScope, context), POLICY_VERSION),
        EvidenceRecord(KernelId(Evidence, n + 2), DestructiveAction, j.destructive,
          Admit(DestructiveAction, j.destructive, context), POLICY_VERSION)]
  {
    hide ObserveCandidate, DecisionLine, KernelId, Admit;
    var (k0, eventId) := Bump(k, Event);
    var p0 := Pass(k0, [], [], false);
    CandidateRecord(p0, eventId, BeyondScope, j.beyondScope, context);
    CandidateEffect(p0, eventId, BeyondScope, j.beyondScope, context);
    CandidateRecord(ObserveCandidate(p0, eventId, BeyondScope, j.beyondScope, context), eventId, DestructiveAction,
      j.destructive, context);
  }

  // ----- what texts say -----

  /** Reads a logged admission decision back. */
  function ReadDecision(text: string): Option<AdmissionDecision> {
    if text == "Reject(UnsupportedKind)" then Some(Reject(UnsupportedKind))
    else if text == "Reject(Expired)" then Some(Reject(Expired))
    else if text == "Reject(SourceBelowTrustFloor)" then Some(Reject(SourceBelowTrustFloor))
    else if text == "Reject(InsufficientSupport)" then Some(Reject(InsufficientSupport))
    else if text == "Hold(NeedsCorroborationOrReview)" then Some(Hold)
    else if text == "Accept(Strong)" then Some(Accept(Strong))
    else if text == "Accept(Corroborated)" then Some(Accept(Corroborated))
    else None
  }

  /** Reads an id prefix back. */
  function ReadPrefix(text: string): Option<Kind> {
    if text == "ev" then Some(Event)
    else if text == "evidence" then Some(Evidence)
    else if text == "trust" then Some(Trust)
    else if text == "delegation" then Some(Delegation)
    else if text == "authorization" then Some(Authorization)
    else if text == "supervision" then Some(Supervised)
    else None
  }

  /** Reads a relation's name back. */
  function ReadRelation(text: string): Option<Kind> {
    if text == "Trust" then Some(Trust)
    else if text == "Delegation" then Some(Delegation)
    else if text == "Authorization" then Some(Authorization)
    else if text == "Supervision" then Some(Supervised)
    else None
  }

  /** Reads a transition back. */
  function ReadTransition(text: string): Option<Transition> {
    if text == "Active -> Warning" then Some(ActiveToWarning)
    else if text == "Active -> Degraded" then Some(ActiveToDegraded)
    else if text == "Active -> Suspended" then Some(ActiveToSuspended)
    else if text == "Suspended -> Active" then Some(SuspendedToActive)
    else if text == "created" then Some(Created)
    else None
  }

  lemma DecisionsReadBack(d: AdmissionDecision)
    ensures ReadDecision(d.Render()) == Some(d)
  {
  }

  lemma KindsReadBack(kind: Kind)
    ensures ReadPrefix(kind.Prefix()) == Some(kind)
    ensures IsRelation(kind) ==> ReadRelation(kind.RelationName()) == Some(kind)
  {
  }

  lemma TransitionsReadBack(t: Transition)
    ensures ReadTransition(t.Text()) == Some(t)
  {
  }

  /** Every name the kernel writes into ids, transitions and log lines can be read back, so no two say the same. */
  lemma TextsReadBack(d: AdmissionDecision, kind: Kind, t: Transition)
    ensures ReadDecision(d.Render()) == Some(d)
    ensures ReadPrefix(kind.Prefix()) == Some(kind)
    ensures IsRelation(kind) ==> ReadRelation(kind.RelationName()) == Some(kind)
    ensures ReadTransition(t.Text()) == Some(t)
  {
    hide AdmissionDecision.Render, Kind.Prefix, Kind.RelationName, Transition.Text, ReadDecision, ReadPrefix,
      ReadRelation,
      ReadTransition;
    DecisionsReadBack(d);
    KindsReadBack(kind);
    TransitionsReadBack(t);
  }

  // ----- exactly what changes -----

  /** The protective chain as it stands to change: one entry for each relation that has not moved yet. */
  function ChainFrom(k: Kernel, cause: string): seq<RelationChange> {
    (if k.state.trust.TrustActive?
     then [RelationChange(KernelId(Trust, k.counters.trust + 1), Trust, ActiveToWarning, cause)] else [])
    + (if k.state.delegation.DelegationActive?
       then [RelationChange(KernelId(Delegation, k.counters.delegation + 1), Delegation, ActiveToDegraded, cause)]
         else [])
    + (if k.state.authorization.AuthorizationActive?
       then [RelationChange(KernelId(Authorization, k.counters.authorization + 1), Authorization, ActiveToSuspended,
         cause)]
       else [])
  }

  predicate AllMoved(k: Kernel) {
    && k.state.trust.TrustWarning?
    && k.state.delegation.DelegationDegraded?
    && k.state.authorization.AuthorizationSuspended?
  }

  predicate SameRelations(a: Kernel, b: Kernel) {
    && a.state == b.state
    && a.counters.trust == b.counters.trust
    && a.counters.delegation == b.counters.delegation
    && a.counters.authorization == b.counters.authorization
  }

  lemma AppliedIsChain(k: Kernel, id: string)
    ensures ApplyEvidence(k, id).1 == ChainFrom(k, id)
    ensures AllMoved(ApplyEvidence(k, id).0)
    ensures ApplyEvidence(k, id).0.counters.evidence == k.counters.evidence
    ensures ApplyEvidence(k, id).0.provenance == k.provenance
  {
    hide KernelId;
  }

  lemma ChainOfSame(a: Kernel, b: Kernel, cause: string)
    requires SameRelations(a, b)
    ensures ChainFrom(a, cause) == ChainFrom(b, cause)
  {
    hide KernelId;
  }

  lemma NothingLeft(k: Kernel, cause: string)
    requires AllMoved(k)
    ensures ChainFrom(k, cause) == []
  {
    hide KernelId;
  }

  lemma CandidateChanges(p: Pass, eventId: string, kind: EvidenceKind, confidence: Ppm, context: AdmissionContext)
    requires kind.IsSupported()
    ensures var p' := ObserveCandidate(p, eventId, kind, confidence, context);
      var id := KernelId(Evidence, p.kernel.counters.evidence + 1);
      var local := if Admissible(confidence, context) then ChainFrom(p.kernel, id) else [];
      && p'.changes == p.changes + local
      && p'.kernel.counters.evidence == p.kernel.counters.evidence + 1
      && p'.kernel.provenance
         == p.kernel.provenance + [CandidateLine(eventId, id, kind, Admit(kind, confidence, context), local)]
      && (if Admissible(confidence, context) then AllMoved(p'.kernel) else SameRelations(p'.kernel, p.kernel))
  {
    hide CandidateLine, KernelId, Admit, Admissible, ApplyEvidence, ChainFrom;
    PolicyIsExact(kind, confidence, context);
    var (k1, id) := Bump(p.kernel, Evidence);
    AppliedIsChain(k1, id);
    ChainOfSame(k1, p.kernel, id);
    assert p.changes + [] == p.changes;
  }

  /**
   Exactly what one observation changes, from any kernel: nothing without
   admissible evidence, else what the protective chain had left, in its order,
   under the next ids, all caused by the first admissible piece of evidence.
   And exactly what it logs: a line for each piece of evidence with the changes it
   caused, and one for the decision.
   */
  lemma ObservationChanges(k: Kernel, j: Judgment, context: AdmissionContext)
    ensures var (k', o) := Observe(k, j, context); var n := k.counters.evidence;
      var scope, harm := Admissible(j.beyondScope, context), Admissible(j.destructive, context);
      var first, second := KernelId(Evidence, n + 1), KernelId(Evidence, n + 2);
      var byScope := if scope then ChainFrom(k, first) else [];
      var byHarm := if harm && !scope then ChainFrom(k, second) else [];
      && o.changes == byScope + byHarm
      && k'.provenance == k.provenance + [
           CandidateLine(o.eventId, first, BeyondScope, Admit(BeyondScope, j.beyondScope, context), byScope),
           CandidateLine(o.eventId, second, DestructiveAction, Admit(DestructiveAction, j.destructive, context),
             byHarm),
           DecisionLine(o.eventId, k'.governing, o.decision, j.tool)]
  {
    hide ObserveCandidate, ChainFrom, CandidateLine, DecisionLine, KernelId, Admit, Admissible;
    var second := KernelId(Evidence, k.counters.evidence + 2);
    var (k0, eventId) := Bump(k, Event);
    var p0 := Pass(k0, [], [], false);
    var p1 := ObserveCandidate(p0, eventId, BeyondScope, j.beyondScope, context);
    CandidateChanges(p0, eventId, BeyondScope, j.beyondScope, context);
    CandidateChanges(p1, eventId, DestructiveAction, j.destructive, context);
    ChainOfSame(k0, k, KernelId(Evidence, k.counters.evidence + 1));
    if Admissible(j.beyondScope, context) {
      NothingLeft(p1.kernel, second);
    } else {
      ChainOfSame(p1.kernel, k, second);
    }
  }

  // ----- overrides -----

  /** The first override of a history, with its position: the supervision it created. */
  ghost predicate FirstOverride(ops: seq<KernelOp>, i: nat) {
    i < |ops| && ops[i].Overridden? && forall j | 0 <= j < i :: !ops[j].Overridden?
  }

  lemma SupervisionStep(k: Kernel, op: KernelOp)
    ensures Apply(k, op).0.state.supervision
         == if op.Overridden? && k.state.supervision.None?
            then Some(Supervision(op.supervisor, KernelId(Event, k.counters.event + 1)))
            else k.state.supervision
    ensures op.Overridden? ==>
              && Apply(k, op).1.decision == Allow
              && forall c | c in Apply(k, op).1.changes ::
                  c.causedBy == Apply(k, op).1.eventId == KernelId(Event, k.counters.event + 1)
  {
    hide OverrideLine, KernelId, CandidateLine, DecisionLine, Admit;
  }

  /**
   Exactly what one override does, from any kernel: it restores a suspended
   authorization under the next id, creates supervision when there is none, and
   records both in this order, caused by its own event and by no evidence.
   */
  lemma OverrideIsExact(k: Kernel, supervisor: string, action: string)
    ensures var (k', o) := Override(k, supervisor, action); var id := KernelId(Event, k.counters.event + 1);
      var restored := if k.state.authorization.AuthorizationActive? then []
        else [RelationChange(KernelId(Authorization, k.counters.authorization + 1), Authorization, SuspendedToActive,
          id)];
      var created := if k.state.supervision.Some? then []
        else [RelationChange(KernelId(Supervised, k.counters.supervision + 1), Supervised, Created, id)];
      && o == Outcome(id, [], HumanRestored, restored + created, Allow, action)
      && k'.state.trust == k.state.trust && k'.state.delegation == k.state.delegation
      && k'.state.authorization.AuthorizationActive?
      && k'.state.supervision == (if k.state.supervision.Some? then k.state.supervision
          else Some(Supervision(supervisor, id)))
      && k'.governing == (if restored == [] then k.governing else Some(restored[0].id))
      && k'.provenance == k.provenance + [id + Links(restored + created) + " -> ALLOW(" + action + ")"]
  {
    hide KernelId, Arrows;
    ArrowsAreLinks(Override(k, supervisor, action).1.changes);
  }

  /** One arrow after the other, read from the front. */
  function Links(changes: seq<RelationChange>): string {
    if changes == [] then "" else " -> " + changes[0].id + Links(changes[1..])
  }

  lemma {:induction false} ArrowsAreLinks(changes: seq<RelationChange>)
    ensures Arrows(changes) == Links(changes)
  {
    if changes != [] {
      var front, last := changes[..|changes| - 1], changes[|changes| - 1];
      ArrowsAreLinks(front);
      LinksSnoc(front, last);
      assert front + [last] == changes;
    }
  }

  lemma {:induction false} LinksSnoc(front: seq<RelationChange>, last: RelationChange)
    ensures Links(front + [last]) == Links(front) + " -> " + last.id
  {
    if front == [] {
      assert [last][1..] == [];
      assert " -> " + last.id + "" == " -> " + last.id && "" + " -> " == " -> ";
    } else {
      LinksSnoc(front[1..], last);
      assert (front + [last])[1..] == front[1..] + [last];
    }
  }

  /** Supervision is the first override's, for ever: its supervisor, and the event id its position gives. */
  lemma {:induction false} SupervisionIsFirstOverride(ops: seq<KernelOp>)
    ensures After(ops).state.supervision.Some? <==> exists i: nat :: FirstOverride(ops, i)
    ensures forall i: nat | FirstOverride(ops, i) ::
              After(ops).state.supervision == Some(Supervision(ops[i].supervisor, KernelId(Event, i + 1)))
  {
    hide Apply, KernelId, FirstOverride;
    if ops == [] {
      NoFirstOfNone();
    } else {
      var n := |ops| - 1;
      var front := ops[..n];
      SupervisionIsFirstOverride(front);
      HistoryCounts(front);
      SupervisionStep(After(front), ops[n]);
      FirstOverrideSnoc(front, ops[n]);
      assert front + [ops[n]] == ops;
    }
  }

  lemma NoFirstOfNone()
    ensures forall i: nat :: !FirstOverride([], i)
  {
  }

  lemma FirstOverrideSnoc(front: seq<KernelOp>, op: KernelOp)
    ensures forall i: nat | i < |front| :: FirstOverride(front + [op], i) <==> FirstOverride(front, i)
    ensures forall i: nat | FirstOverride(front, i) || FirstOverride(front + [op], i) :: i <= |front|
    ensures forall i: nat | FirstOverride(front, i) :: i < |front|
    ensures FirstOverride(front + [op], |front|) <==> op.Overridden? && forall i: nat :: !FirstOverride(front, i)
  {
    var ops := front + [op];
    assert forall j | 0 <= j < |front| :: front[j] == ops[j];
    forall i: nat | i < |front| ensures FirstOverride(ops, i) <==> FirstOverride(front, i) {
      assert forall j | 0 <= j <= i :: front[j] == ops[j];
    }
    if forall i: nat :: !FirstOverride(front, i) {
      NoOverrideYet(front);
    }
    if i: nat :| FirstOverride(front, i) {
      assert ops[i].Overridden?;
    }
  }

  lemma {:induction false} NoOverrideYet(ops: seq<KernelOp>)
    requires forall i: nat :: !FirstOverride(ops, i)
    ensures forall j | 0 <= j < |ops| :: !ops[j].Overridden?
  {
    if ops != [] {
      var front := ops[..|ops| - 1];
      forall i: nat ensures !FirstOverride(front, i) {
        if FirstOverride(front, i) { assert FirstOverride(ops, i); }
      }
      NoOverrideYet(front);
      if ops[|ops| - 1].Overridden? { assert FirstOverride(ops, |ops| - 1); }
    }
  }
}
