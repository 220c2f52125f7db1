/**
 Execution binding: a decision issued in the past may be executed only while
 the relation state it was bound to is still current. Proved over arbitrary
 store runs, in which any domain's version may advance any number of times.
 */
module Enforcement {
  import opened Wrappers
  import opened Store

  const ALLOW := "ALLOW"

  datatype Request = Request(decisionId: string, action: string, expectedStateVersion: string)

  datatype ReasonCode =
    | UnknownDecision
    | DecisionNotAllow
    | ActionMismatch
    | ExpectedStateVersionMismatch
    | StateVersionStale
    | ExecutionAllowed

  datatype BindingResult = BindingResult(
    allowed: bool,
    reason: ReasonCode,
    decisionId: string,
    domain: Option<DomainKey>,
    action: string,
    decisionStateVersion: Option<string>,
    currentStateVersion: Option<string>)

  function ForDecision(req: Request, d: StoredDecision, current: string, allowed: bool,
      reason: ReasonCode): BindingResult {
    BindingResult(allowed, reason, req.decisionId, Some(d.domain), req.action, Some(d.stateVersion), Some(current))
  }

  /** The enforcement gate. It reads the store and changes nothing; an unhealthy store is an error, not a verdict. */
  function ValidateExecution(fatalError: Option<PersistError>, s: StoreState, req: Request)
    : Result<BindingResult, PersistError>
  {
    if fatalError.Some? then Err(fatalError.value)
    else
      var found := FindDecision(s.decisions, req.decisionId);
      if found.None? then
        Ok(BindingResult(false, UnknownDecision, req.decisionId, None, req.action, None, None))
      else
        var d := found.value;
        var current := StateVersion(StateCounter(s.versions, d.domain));
        Ok(if d.verdict != ALLOW then ForDecision(req, d, current, false, DecisionNotAllow)
           else if d.action != req.action then ForDecision(req, d, current, false, ActionMismatch)
           else if d.stateVersion != req.expectedStateVersion
             then ForDecision(req, d, current, false, ExpectedStateVersionMismatch)
           else if current != d.stateVersion then ForDecision(req, d, current, false, StateVersionStale)
           else ForDecision(req, d, current, true, ExecutionAllowed))
  }

  // ----- store runs -----

  datatype StoreOp =
    | AdvanceVersion(domain: DomainKey)
    | IssueDecision(domain: DomainKey, action: string, verdict: string, reasonCode: string,
                    governing: Option<string>, provenance: seq<string>)
    | AppendEvent(event: StoredEvent)
    | AppendOutcome(outcome: StoredOutcome)

  /** The decision record an issue step writes: the next id, bound to the domain's current version. */
  function Issued(s: StoreState, op: StoreOp): StoredDecision
    requires op.IssueDecision?
  {
    StoredDecision(DecisionId(s.decisionCounter + 1), op.domain, op.action, op.verdict, op.reasonCode, op.governing,
                   StateVersion(StateCounter(s.versions, op.domain)), op.provenance)
  }

  function ApplyOp(s: StoreState, op: StoreOp): StoreState {
    match op
    case AdvanceVersion(d) => s.(versions := Advance(s.versions, d))
    case IssueDecision(_, _, _, _, _, _) =>
      s.(decisionCounter := s.decisionCounter + 1, decisions := s.decisions + [Issued(s, op)])
    case AppendEvent(e) =>
      s.(eventCounter := s.eventCounter + 1, events := s.events + [e.(eventId := EventId(s.eventCounter + 1))])
    case AppendOutcome(o) =>
      s.(outcomeCounter := s.outcomeCounter + 1,
         outcomes := s.outcomes + [o.(outcomeId := OutcomeId(s.outcomeCounter + 1))])
  }

  function RunStore(ops: seq<StoreOp>): StoreState {
    if ops == [] then EMPTY_STORE else ApplyOp(RunStore(ops[..|ops| - 1]), ops[|ops| - 1])
  }

  function Issues(ops: seq<StoreOp>): nat {
    if ops == [] then 0 else Issues(ops[..|ops| - 1]) + if ops[|ops| - 1].IssueDecision? then 1 else 0
  }

  function Advances(ops: seq<StoreOp>, d: DomainKey): nat {
    if ops == [] then 0 else Advances(ops[..|ops| - 1], d) + if ops[|ops| - 1] == AdvanceVersion(d) then 1 else 0
  }

  /** Step `i` issued the decision whose id the request presents. */
  ghost predicate Issuer(ops: seq<StoreOp>, i: nat, req: Request)
    requires i < |ops|
  {
    ops[i].IssueDecision? && req.decisionId == DecisionId(Issues(ops[..i]) + 1)
  }

  /** Step `i` issued exactly the ALLOW the request presents: its id, its action and the version bound then. */
  ghost predicate IssuedAllow(ops: seq<StoreOp>, i: nat, req: Request)
    requires i < |ops|
  {
    && Issuer(ops, i, req)
    && ops[i].verdict == ALLOW
    && ops[i].action == req.action
    && req.expectedStateVersion == StateVersion(Advances(ops[..i], ops[i].domain))
  }

  /** The relation state of the domain of step `i` has not advanced since. */
  ghost predicate Unmoved(ops: seq<StoreOp>, i: nat)
    requires i < |ops| && ops[i].IssueDecision?
  {
    forall j | i < j < |ops| :: ops[j] != AdvanceVersion(ops[i].domain)
  }

  /** In every store run the counters are what the run's steps add up to. */
  lemma {:induction false} RunCounts(ops: seq<StoreOp>, d: DomainKey)
    ensures var s := RunStore(ops);
      && |s.decisions| == s.decisionCounter == Issues(ops)
      && SequentialDecisions(s.decisions)
      && UniqueDomains(s.versions)
      && StateCounter(s.versions, d) == Advances(ops, d)
  {
    hide DecisionId, StateVersion, EventId, OutcomeId;
    if ops != [] {
      var front, op := ops[..|ops| - 1], ops[|ops| - 1];
      RunCounts(front, d);
      if op.AdvanceVersion? {
        AdvanceMovesOneKey(RunStore(front).versions, op.domain, d);
        AdvanceKeepsUnique(RunStore(front).versions, op.domain);
      }
    }
  }

  /** Step `i`'s record is in the log at the position its issue count gives, for ever. */
  lemma {:induction false} RecordPersists(ops: seq<StoreOp>, i: nat)
    requires i < |ops| && ops[i].IssueDecision?
    ensures Issues(ops[..i]) < |RunStore(ops).decisions|
    ensures RunStore(ops).decisions[Issues(ops[..i])] == Issued(RunStore(ops[..i]), ops[i])
  {
    hide DecisionId, StateVersion, EventId, OutcomeId;
    var front := ops[..|ops| - 1];
    assert front[..i] == ops[..i];
    if i < |front| {
      RecordPersists(front, i);
    } else {
      RunCounts(front, ops[i].domain);
    }
  }

  lemma {:induction false} RecordHasIssuer(ops: seq<StoreOp>, k: nat) returns (i: nat)
    requires k < |RunStore(ops).decisions|
    ensures i < |ops| && ops[i].IssueDecision? && Issues(ops[..i]) == k
  {
    hide DecisionId, StateVersion, EventId, OutcomeId;
    var front := ops[..|ops| - 1];
    if k < |RunStore(front).decisions| {
      i := RecordHasIssuer(front, k);
      assert front[..i] == ops[..i];
    } else {
      i := |ops| - 1;
      RunCounts(front, DomainKey("", ""));
    }
  }

  lemma {:induction false} AdvancesSince(ops: seq<StoreOp>, i: nat, d: DomainKey)
    requires i < |ops| && ops[i].IssueDecision?
    ensures Advances(ops[..i], d) <= Advances(ops, d)
    ensures Advances(ops[..i], d) == Advances(ops, d) <==> forall j | i < j < |ops| :: ops[j] != AdvanceVersion(d)
  {
    var front := ops[..|ops| - 1];
    assert front[..i] == ops[..i];
    if i < |front| {
      AdvancesSince(front, i, d);
      assert forall j | i < j < |front| :: front[j] == ops[j];
    }
  }

  /** The first check that a request about step `i`'s decision fails, in the gate's order. */
  ghost predicate Fails(ops: seq<StoreOp>, i: nat, req: Request, reason: ReasonCode)
    requires i < |ops| && ops[i].IssueDecision?
  {
    match reason
    case DecisionNotAllow => ops[i].verdict != ALLOW
    case ActionMismatch => ops[i].verdict == ALLOW && ops[i].action != req.action
    case ExpectedStateVersionMismatch =>
      && ops[i].verdict == ALLOW && ops[i].action == req.action
      && req.expectedStateVersion != StateVersion(Advances(ops[..i], ops[i].domain))
    case StateVersionStale => IssuedAllow(ops, i, req) && !Unmoved(ops, i)
    case ExecutionAllowed => IssuedAllow(ops, i, req) && Unmoved(ops, i)
    case UnknownDecision => false
  }

  /** What the gate answers about the decision that step `i` issued. */
  lemma GateOnIssued(ops: seq<StoreOp>, i: nat, req: Request)
    requires i < |ops| && Issuer(ops, i, req)
    ensures var r := ValidateExecution(None, RunStore(ops), req);
      && r.Ok?
      && FitsIssuer(ops, i, req, r.value)
      && (r.value.allowed <==> IssuedAllow(ops, i, req) && Unmoved(ops, i))
      && (r.value.reason == StateVersionStale <==> IssuedAllow(ops, i, req) && !Unmoved(ops, i))
  {
    hide DecisionId, StateVersion, RunStore, Issues, Advances, FindDecision, UniqueDomains, StateCounter;
    var d := ops[i].domain;
    RunCounts(ops, d);
    RunCounts(ops[..i], d);
    RecordPersists(ops, i);
    FindIsExact(RunStore(ops).decisions, req.decisionId);
    AdvancesSince(ops, i, d);
    StateVersionInjective(Advances(ops[..i], d), Advances(ops, d));
  }

  /**
   Execution binding over whole runs: the gate allows exactly when some step
   issued that ALLOW and its domain has not moved since, and it answers "stale"
   exactly when some step issued it and the domain has moved. On a store with a
   latched failure it answers nothing but that failure.
   */
  lemma ExecutionBinding(fatalError: Option<PersistError>, ops: seq<StoreOp>, req: Request)
    ensures fatalError.Some? ==> ValidateExecution(fatalError, RunStore(ops), req) == Err(fatalError.value)
    ensures fatalError.None? ==>
      var r := ValidateExecution(fatalError, RunStore(ops), req);
      && r.Ok?
      && (r.value.allowed <==> exists i: nat | i < |ops| :: IssuedAllow(ops, i, req) && Unmoved(ops, i))
      && (r.value.reason == StateVersionStale
          <==> exists i: nat | i < |ops| :: IssuedAllow(ops, i, req) && !Unmoved(ops, i))
  {
    UnhealthyAnswersNothing(fatalError, RunStore(ops), req);
    hide DecisionId, StateVersion, RunStore, Issues, Advances, FindDecision, UniqueDomains, StateCounter,
      ValidateExecution,
      FitsIssuer, Unmoved;
    var s := RunStore(ops);
    var r := ValidateExecution(None, s, req);
    AnswerShape(s, req);
    RunCounts(ops, DomainKey("", ""));
    forall i: nat | i < |ops| && IssuedAllow(ops, i, req)
      ensures r.value.allowed <==> Unmoved(ops, i)
      ensures r.value.reason == StateVersionStale <==> !Unmoved(ops, i)
    {
      GateOnIssued(ops, i, req);
    }
    FindIsExact(s.decisions, req.decisionId);
    if FindDecision(s.decisions, req.decisionId).Some? {
      var k :| 0 <= k < |s.decisions| && s.decisions[k].decisionId == req.decisionId;
      var i := RecordHasIssuer(ops, k);
      GateOnIssued(ops, i, req);
    }
  }

  lemma UnhealthyAnswersNothing(fatalError: Option<PersistError>, s: StoreState, req: Request)
    ensures fatalError.Some? ==> ValidateExecution(fatalError, s, req) == Err(fatalError.value)
  {
  }

  /**
   The reason given is exact too: unknown exactly when no step issued the id,
   and otherwise the one check that the issuing step's decision fails first,
   with that decision's domain and the versions bound then and current now.
   */
  lemma ReasonsAreExact(ops: seq<StoreOp>, req: Request)
    ensures var r := ValidateExecution(None, RunStore(ops), req);
      && r.Ok?
      && r.value.allowed == r.value.reason.ExecutionAllowed?
      && r.value.decisionId == req.decisionId && r.value.action == req.action
      && (r.value.reason.UnknownDecision? ==>
            r.value.domain.None? && r.value.decisionStateVersion.None? && r.value.currentStateVersion.None?)
      && (r.value.reason.UnknownDecision? <==> forall i: nat | i < |ops| :: !Issuer(ops, i, req))
      && (forall i: nat | i < |ops| && Issuer(ops, i, req) ::
            FitsIssuer(ops, i, req, r.value))
  {
    hide DecisionId, StateVersion, RunStore, Issues, Advances, FindDecision, UniqueDomains, StateCounter, Fails,
      ValidateExecution, FitsIssuer;
    var s := RunStore(ops);
    AnswerShape(s, req);
    RunCounts(ops, DomainKey("", ""));
    forall i: nat | i < |ops| && Issuer(ops, i, req)
      ensures var r := ValidateExecution(None, s, req);
        r.Ok? && FitsIssuer(ops, i, req, r.value) && !r.value.reason.UnknownDecision?
    {
      GateOnIssued(ops, i, req);
      IssuedIsKnown(ops, i, req, ValidateExecution(None, s, req).value);
    }
    FindIsExact(s.decisions, req.decisionId);
    if FindDecision(s.decisions, req.decisionId).Some? {
      var k :| 0 <= k < |s.decisions| && s.decisions[k].decisionId == req.decisionId;
      var i := RecordHasIssuer(ops, k);
      assert Issuer(ops, i, req);
    }
  }

  /** What every answer of a healthy gate has in common. */
  lemma AnswerShape(s: StoreState, req: Request)
    ensures var r := ValidateExecution(None, s, req);
      && r.Ok?
      && r.value.allowed == r.value.reason.ExecutionAllowed?
      && r.value.decisionId == req.decisionId && r.value.action == req.action
      && (r.value.reason.UnknownDecision? <==> FindDecision(s.decisions, req.decisionId).None?)
      && (r.value.reason.UnknownDecision? ==>
            r.value.domain.None? && r.value.decisionStateVersion.None? && r.value.currentStateVersion.None?)
  {
    hide FindDecision, StateVersion, StateCounter;
  }

  lemma IssuedIsKnown(ops: seq<StoreOp>, i: nat, req: Request, b: BindingResult)
    requires i < |ops| && Issuer(ops, i, req) && FitsIssuer(ops, i, req, b)
    ensures !b.reason.UnknownDecision?
  {
    hide IssuedAllow, Unmoved;
  }

  /**
   The answer names the first check that fails, the issuing step's domain, and
   the versions bound then and current now.
   */
  ghost predicate FitsIssuer(ops: seq<StoreOp>, i: nat, req: Request, b: BindingResult)
    requires i < |ops| && Issuer(ops, i, req)
  {
    && Fails(ops, i, req, b.reason)
    && b.domain == Some(ops[i].domain)
    && b.decisionStateVersion == Some(StateVersion(Advances(ops[..i], ops[i].domain)))
    && b.currentStateVersion == Some(StateVersion(Advances(ops, ops[i].domain)))
  }
}
