/**
 The governance runtime as an event-sourced state machine: many (subject,
 scope) domains interleaved over one store. `Step` is the specification of the
 five tools; `RecoverLog` and `ScanReplay` are the two ways the program reads
 its own log back.
 */
module Runtime {
  import opened Wrappers
  import opened Admission
  import opened GovernanceKernel
  import opened Store

  datatype DomainState = DomainState(kernel: Kernel, nextVtick: nat, projected: Decision, governing: Option<string>)

  const FRESH := DomainState(NEW_KERNEL, 1, Allow, None)

  datatype RuntimeState = RuntimeState(domains: map<DomainKey, DomainState>, store: StoreState)

  const NEW_RUNTIME := RuntimeState(map[], EMPTY_STORE)

  /** An absent domain behaves as a fresh one: the map is filled on first use. */
  function DomainOf(domains: map<DomainKey, DomainState>, d: DomainKey): DomainState {
    if d in domains then domains[d] else FRESH
  }

  datatype ObserveParams = ObserveParams(
    provider: string, domain: DomainKey, task: string, action: string, intent: string, beyondScope: nat,
      destructive: nat)
  {
    predicate InRange() {
      beyondScope <= PPM && destructive <= PPM
    }
  }

  datatype DecideParams = DecideParams(domain: DomainKey, action: string, resource: Option<string>,
    task: Option<string>)

  datatype OutcomeKind = Executed | Blocked | Failed | RolledBack | UserCorrected | PolicyBreachConfirmed
  {
    function Name(): string {
      match this
      case Executed => "executed"
      case Blocked => "blocked"
      case Failed => "failed"
      case RolledBack => "rolled_back"
      case UserCorrected => "user_corrected"
      case PolicyBreachConfirmed => "policy_breach_confirmed"
    }
  }

  datatype OutcomeParams = OutcomeParams(decisionId: string, outcome: OutcomeKind, detail: Option<string>)

  datatype Op =
    | ObserveOp(observe: ObserveParams)
    | DecideOp(decide: DecideParams)
    | OutcomeOp(record: OutcomeParams)
    | ExplainOp(decisionId: string)
    | ReplayOp(domain: DomainKey)

  datatype GoverningRelation = GoverningRelation(relationId: string, phase: AuthorizationPhase)

  datatype Summary = WasDenied | WasAllowed

  datatype Response =
    | Observed(eventId: string, evidence: seq<EvidenceRecord>, transitions: seq<string>, stateVersion: string)
    | Decided(decisionId: string, decision: string, reasonCode: string, governingRelations: seq<GoverningRelation>,
              humanReview: bool, stateVersion: string)
    | OutcomeRecorded(outcomeId: string, decisionId: string, outcome: string, stateVersion: string)
    | Explained(record: StoredDecision, summary: Summary)
    | Replayed(replayMatch: bool, recordedVersion: string, replayedVersion: string, replayedEvents: nat,
               firstDivergent: Option<string>)

  datatype RuntimeError = ConfidenceOutOfRange | UnknownDecisionId(id: string)

  // ----- judging one observation in one domain -----

  function RenderChange(c: RelationChange): string {
    c.id + ":" + c.relation.RelationName() + ":" + c.transition.Text()
  }

  function RenderChanges(changes: seq<RelationChange>): seq<string> {
    if changes == [] then [] else RenderChanges(changes[..|changes| - 1]) + [RenderChange(changes[|changes| - 1])]
  }

  function LastAuthorization(changes: seq<RelationChange>, previous: Option<string>): Option<string> {
    if changes == [] then previous
    else if changes[|changes| - 1].relation == Authorization then Some(changes[|changes| - 1].id)
    else LastAuthorization(changes[..|changes| - 1], previous)
  }

  function JudgmentFor(p: ObserveParams): Judgment
    requires p.InRange()
  {
    Judgment(p.provider, p.domain.subject, p.domain.scope, p.task, p.action, p.intent, p.beyondScope, p.destructive)
  }

  function InputFor(p: ObserveParams, context: AdmissionContext): ReplayObservation
    requires p.InRange() && context.now <= context.expires
  {
    ReplayInput(p.provider, p.task, p.action, p.intent, p.beyondScope, p.destructive,
                context.reliability, context.corroborators, context.now, context.expires, POLICY_VERSION)
  }

  /** Judges with the kernel and updates what the runtime projects from it. */
  function JudgeDomain(ds: DomainState, j: Judgment, context: AdmissionContext, nextVtick: nat)
    : (DomainState, Outcome)
  {
    var (kernel, outcome) := Observe(ds.kernel, j, context);
    (DomainState(kernel, nextVtick, outcome.decision, LastAuthorization(outcome.changes, ds.governing)), outcome)
  }

  function ObserveDomain(ds: DomainState, p: ObserveParams): (DomainState, Outcome)
    requires p.InRange()
  {
    JudgeDomain(ds, JudgmentFor(p), Demo(ds.nextVtick), ds.nextVtick + 1)
  }

  // ----- the tools -----

  function EventHeader(eventId: string, kernelEventId: string, d: DomainKey): string {
    eventId + " [kernel_event=" + kernelEventId + " domain=" + d.subject + "/" + d.scope + "]"
  }

  function DecisionTrail(decisionId: string, d: DomainKey, stateVersion: string, verdict: string,
      action: string): string {
    decisionId + " [domain=" + d.subject + "/" + d.scope + " state=" + stateVersion + "]"
    + " -> " + verdict + "(" + action + ")"
  }

  /** The versions list after an outcome: advanced exactly when the outcome changed a relation. */
  function VersionsAfter(versions: seq<DomainVersion>, d: DomainKey, outcome: Outcome): seq<DomainVersion> {
    if outcome.changes == [] then versions else Advance(versions, d)
  }

  /** The slice of the kernel's provenance that one observation appended. */
  function NewLines(before: seq<string>, after: seq<string>): seq<string> {
    if |before| <= |after| then after[|before|..] else []
  }

  function EventFor(
    s: StoreState, d: DomainKey, action: string, outcome: Outcome, input: ReplayObservation,
      lines: seq<string>): StoredEvent
  {
    var eventId := EventId(s.eventCounter + 1);
    StoredEvent(
      eventId, outcome.eventId, d, action,
      StateVersion(StateCounter(VersionsAfter(s.versions, d, outcome), d)),
      RenderChanges(outcome.changes),
      [EventHeader(eventId, outcome.eventId, d)] + lines,
      Some(input))
  }

  function Logged(s: StoreState, d: DomainKey, outcome: Outcome, event: StoredEvent): StoreState {
    s.(versions := VersionsAfter(s.versions, d, outcome),
       eventCounter := s.eventCounter + 1,
       events := s.events + [event])
  }

  function ObservedEvent(rt: RuntimeState, p: ObserveParams): StoredEvent
    requires p.InRange()
  {
    var ds := DomainOf(rt.domains, p.domain);
    var (ds', outcome) := ObserveDomain(ds, p);
    EventFor(rt.store, p.domain, p.action, outcome, InputFor(p, Demo(ds.nextVtick)),
      NewLines(ds.kernel.provenance, ds'.kernel.provenance))
  }

  function ObserveTool(rt: RuntimeState, p: ObserveParams): (RuntimeState, Result<Response, RuntimeError>) {
    if !p.InRange() then (rt, Err(ConfidenceOutOfRange))
    else
      var (ds', outcome) := ObserveDomain(DomainOf(rt.domains, p.domain), p);
      var event := ObservedEvent(rt, p);
      (RuntimeState(rt.domains[p.domain := ds'], Logged(rt.store, p.domain, outcome, event)),
       Ok(Observed(event.eventId, outcome.evidence, event.transitions, event.stateVersion)))
  }

  function CausalChain(events: seq<StoredEvent>): seq<string> {
    if events == [] then [] else CausalChain(events[..|events| - 1]) + events[|events| - 1].provenance
  }

  const SUSPENDED_CODE := "AUTHORIZATION_SUSPENDED"
  const ACTIVE_CODE := "AUTHORIZATION_ACTIVE"

  function DecisionFor(s: StoreState, ds: DomainState, p: DecideParams): StoredDecision {
    var decisionId := DecisionId(s.decisionCounter + 1);
    var stateVersion := StateVersion(StateCounter(s.versions, p.domain));
    StoredDecision(
      decisionId, p.domain, p.action, ds.projected.Name(),
      if ds.projected == Allow then ACTIVE_CODE else SUSPENDED_CODE,
      ds.governing, stateVersion,
      CausalChain(EventsFor(s.events, p.domain))
      + [DecisionTrail(decisionId, p.domain, stateVersion, ds.projected.Name(), p.action)])
  }

  function Decreed(s: StoreState, decision: StoredDecision): StoreState {
    s.(decisionCounter := s.decisionCounter + 1, decisions := s.decisions + [decision])
  }

  function DecisionRecord(rt: RuntimeState, p: DecideParams): StoredDecision {
    DecisionFor(rt.store, DomainOf(rt.domains, p.domain), p)
  }

  function GoverningRelations(governing: Option<string>, projected: Decision): seq<GoverningRelation> {
    if governing.None? then []
    else [GoverningRelation(governing.value, if projected == Deny then AuthorizationSuspended else AuthorizationActive)]
  }

  function DecideTool(rt: RuntimeState, p: DecideParams): (RuntimeState, Result<Response, RuntimeError>) {
    var ds := DomainOf(rt.domains, p.domain);
    var d := DecisionRecord(rt, p);
    (RuntimeState(rt.domains[p.domain := ds], Decreed(rt.store, d)),
     Ok(Decided(d.decisionId, d.verdict, d.reasonCode, GoverningRelations(ds.governing, ds.projected),
                ds.projected == Deny, d.stateVersion)))
  }

  function ExplainTool(s: StoreState, id: string): Result<Response, RuntimeError> {
    var found := FindDecision(s.decisions, id);
    if found.None? then Err(UnknownDecisionId(id))
    else Ok(Explained(found.value, if found.value.verdict == "DENY" then WasDenied else WasAllowed))
  }

  function OutcomeTool(s: StoreState, p: OutcomeParams): (StoreState, Result<Response, RuntimeError>) {
    var found := FindDecision(s.decisions, p.decisionId);
    if found.None? then (s, Err(UnknownDecisionId(p.decisionId)))
    else
      var d := found.value;
      var id := OutcomeId(s.outcomeCounter + 1);
      var stateVersion := StateVersion(StateCounter(s.versions, d.domain));
      (s.(outcomeCounter := s.outcomeCounter + 1,
          outcomes := s.outcomes + [StoredOutcome(id, d.decisionId, d.domain, p.outcome.Name(), p.detail,
            stateVersion)]),
       Ok(OutcomeRecorded(id, d.decisionId, p.outcome.Name(), stateVersion)))
  }

  function Step(rt: RuntimeState, op: Op): (RuntimeState, Result<Response, RuntimeError>) {
    match op
    case ObserveOp(p) => ObserveTool(rt, p)
    case DecideOp(p) => DecideTool(rt, p)
    case OutcomeOp(p) => var (s, r) := OutcomeTool(rt.store, p); (rt.(store := s), r)
    case ExplainOp(id) => (rt, ExplainTool(rt.store, id))
    case ReplayOp(d) => (rt, Ok(ReplayTool(rt.store, d)))
  }

  /** Only these three operations write to the store, and only when they succeed. */
  predicate Mutating(op: Op) {
    op.ObserveOp? || op.DecideOp? || op.OutcomeOp?
  }

  function RunFrom(start: RuntimeState, ops: seq<Op>): RuntimeState {
    if ops == [] then start else Step(RunFrom(start, ops[..|ops| - 1]), ops[|ops| - 1]).0
  }

  function Run(ops: seq<Op>): RuntimeState {
    RunFrom(NEW_RUNTIME, ops)
  }

  lemma RunSnoc(start: RuntimeState, ops: seq<Op>, op: Op)
    ensures RunFrom(start, ops + [op]) == Step(RunFrom(start, ops), op).0
  {
    assert (ops + [op])[..|ops|] == ops;
  }

  // ----- reading the log back -----

  predicate Replayable(e: StoredEvent) {
    e.replay.Some? && e.replay.value.policyVersion == POLICY_VERSION
  }

  function ContextOf(e: StoredEvent): AdmissionContext
    requires Replayable(e)
  {
    var i := e.replay.value;
    NewContext(i.reliability, i.corroborators, i.now, i.expires)
  }

  function JudgmentOf(e: StoredEvent): Judgment
    requires Replayable(e)
  {
    var i := e.replay.value;
    Judgment(i.provider, e.domain.subject, e.domain.scope, i.task, i.action, i.intent, i.beyondScope, i.destructive)
  }

  /** The event says exactly what judging its input again said. */
  predicate Records(e: StoredEvent, outcome: Outcome, version: nat) {
    && e.kernelEventId == outcome.eventId
    && e.stateVersion == StateVersion(version)
    && e.transitions == RenderChanges(outcome.changes)
  }

  function Bumped(version: nat, outcome: Outcome): nat {
    if outcome.changes == [] then version else version + 1
  }

  // ----- recovery: one interleaved pass over every domain -----

  datatype Recovering = Recovering(domains: map<DomainKey, DomainState>, versions: map<DomainKey, nat>)

  datatype RecoveryError =
    | Unhealthy(error: PersistError)
    | NoReplayInput(eventId: string)
    | PolicyUnavailable(eventId: string)
    | Diverged(eventId: string)
    | VersionMismatch(domain: DomainKey)

  function VersionOf(versions: map<DomainKey, nat>, d: DomainKey): nat {
    if d in versions then versions[d] else 0
  }

  function Max(a: nat, b: nat): nat {
    if a >= b then a else b
  }

  function RecoverEvent(r: Recovering, e: StoredEvent): Result<Recovering, RecoveryError> {
    if e.replay.None? then
      if e.transitions != [] then Err(NoReplayInput(e.eventId)) else Ok(r)
    else if !Replayable(e) then Err(PolicyUnavailable(e.eventId))
    else
      var ds := DomainOf(r.domains, e.domain);
      var (ds', outcome) := JudgeDomain(ds, JudgmentOf(e), ContextOf(e), Max(ds.nextVtick, ContextOf(e).now + 1));
      var version := Bumped(VersionOf(r.versions, e.domain), outcome);
      if Records(e, outcome, version)
      then Ok(Recovering(r.domains[e.domain := ds'], r.versions[e.domain := version]))
      else Err(Diverged(e.eventId))
  }

  function RecoverLog(events: seq<StoredEvent>): Result<Recovering, RecoveryError> {
    if events == [] then Ok(Recovering(map[], map[]))
    else
      var front := RecoverLog(events[..|events| - 1]);
      if front.Err? then front else RecoverEvent(front.value, events[|events| - 1])
  }

  predicate VersionsAgree(versions: map<DomainKey, nat>, s: StoreState) {
    forall d | d in versions :: StateVersion(versions[d]) == StateVersion(StateCounter(s.versions, d))
  }

  /** A healthy store from which startup succeeds. */
  predicate Recovers(s: StoreState) {
    RecoverLog(s.events).Ok? && VersionsAgree(RecoverLog(s.events).value.versions, s)
  }

  function Recovered(s: StoreState): RuntimeState
    requires Recovers(s)
  {
    RuntimeState(RecoverLog(s.events).value.domains, s)
  }

  // ----- replay: one domain over its filtered log -----

  datatype ReplayScan = ReplayScan(kernel: Kernel, version: nat, count: nat, first: Option<string>, stopped: bool)

  const NEW_SCAN := ReplayScan(NEW_KERNEL, 0, 0, None, false)

  function ScanEvent(r: ReplayScan, e: StoredEvent): ReplayScan {
    if r.stopped || e.replay.None? then r
    else if !Replayable(e) then
      r.(count := r.count + 1, first := if r.first.Some? then r.first else Some(e.eventId), stopped := true)
    else
      var (kernel, outcome) := Observe(r.kernel, JudgmentOf(e), ContextOf(e));
      var version := Bumped(r.version, outcome);
      ReplayScan(kernel, version, r.count + 1,
                 if r.first.Some? || Records(e, outcome, version) then r.first else Some(e.eventId), false)
  }

  function ScanReplay(events: seq<StoredEvent>): ReplayScan {
    if events == [] then NEW_SCAN else ScanEvent(ScanReplay(events[..|events| - 1]), events[|events| - 1])
  }

  function ReplayTool(s: StoreState, d: DomainKey): Response {
    var scan := ScanReplay(EventsFor(s.events, d));
    var recorded := StateVersion(StateCounter(s.versions, d));
    var replayed := StateVersion(scan.version);
    Replayed(scan.first.None? && recorded == replayed, recorded, replayed, scan.count, scan.first)
  }
}
