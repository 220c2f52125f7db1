/** Execution binding over runs of the runtime. */
module RuntimeBinding {
  import opened Wrappers
  import opened GovernanceKernel
  import opened KernelHistory
  import opened Store
  import opened Enforcement
  import opened Runtime
  import opened Reachable
  import opened Verdicts
  import opened Explanations

  // ----- a runtime run is a store run -----

  /** The store operations one runtime operation performs. */
  function StoreOpsOf(rt: RuntimeState, op: Op): seq<StoreOp> {
    match op
    case ObserveOp(p) =>
      if !p.InRange() then []
      else
        (if ObserveDomain(DomainOf(rt.domains, p.domain), p).1.changes == [] then [] else [AdvanceVersion(p.domain)])
        + [AppendEvent(ObservedEvent(rt, p))]
    case DecideOp(p) =>
      var d := DecisionRecord(rt, p);
      [IssueDecision(d.domain, d.action, d.verdict, d.reasonCode, d.governingRelation, d.provenance)]
    case OutcomeOp(p) =>
      var s := OutcomeTool(rt.store, p).0;
      if |s.outcomes| == |rt.store.outcomes| + 1 then [AppendOutcome(s.outcomes[|rt.store.outcomes|])] else []
    case _ => []
  }

  function Trace(ops: seq<Op>): seq<StoreOp> {
    if ops == [] then [] else Trace(ops[..|ops| - 1]) + StoreOpsOf(Run(ops[..|ops| - 1]), ops[|ops| - 1])
  }

  lemma RunStoreSnoc(trace: seq<StoreOp>, op: StoreOp)
    ensures RunStore(trace + [op]) == ApplyOp(RunStore(trace), op)
  {
    assert (trace + [op])[..|trace|] == trace;
  }

  lemma StepIsStoreOps(trace: seq<StoreOp>, rt: RuntimeState, op: Op)
    requires RunStore(trace) == rt.store
    ensures RunStore(trace + StoreOpsOf(rt, op)) == Step(rt, op).0.store
  {
    hide EventHeader, NewLines, RenderChanges, ObserveDomain, StateVersion, EventId, DecisionId, OutcomeId, CausalChain,
      DecisionTrail, InputFor, ReplayTool, ExplainTool, RunStore, FindDecision;
    var more := StoreOpsOf(rt, op);
    if |more| == 0 {
      assert trace + more == trace;
    } else if |more| == 1 {
      RunStoreSnoc(trace, more[0]);
      assert trace + more == trace + [more[0]];
    } else {
      RunStoreSnoc(trace, more[0]);
      RunStoreSnoc(trace + [more[0]], more[1]);
      assert trace + more == trace + [more[0]] + [more[1]];
    }
  }

  /** So everything proved of store runs holds of the store of any runtime run. */
  lemma {:induction false} RuntimeRunsAreStoreRuns(ops: seq<Op>)
    ensures RunStore(Trace(ops)) == Run(ops).store
  {
    hide Step, StoreOpsOf;
    if ops != [] {
      RuntimeRunsAreStoreRuns(ops[..|ops| - 1]);
      StepIsStoreOps(Trace(ops[..|ops| - 1]), Run(ops[..|ops| - 1]), ops[|ops| - 1]);
    }
  }

  // ----- the decisions of a run, from any start -----

  /** The decisions a run adds to those it started with, in order. */
  function IssuedFrom(start: RuntimeState, ops: seq<Op>): seq<StoredDecision> {
    if ops == [] then []
    else
      var front, op := ops[..|ops| - 1], ops[|ops| - 1];
      IssuedFrom(start, front) + if op.DecideOp? then [DecisionRecord(RunFrom(start, front), op.decide)] else []
  }

  lemma StepIssues(rt: RuntimeState, op: Op)
    ensures var s := Step(rt, op).0.store;
      && s.decisions == rt.store.decisions + (if op.DecideOp? then [DecisionRecord(rt, op.decide)] else [])
      && s.decisionCounter == rt.store.decisionCounter + (if op.DecideOp? then 1 else 0)
    ensures op.DecideOp? ==> DecisionRecord(rt, op.decide).decisionId == DecisionId(rt.store.decisionCounter + 1)
  {
    hide ObserveDomain, ObservedEvent, ReplayTool, ExplainTool, FindDecision, DecisionId, StateVersion, CausalChain,
      DecisionTrail, OutcomeId;
  }

  lemma {:induction false} DecisionsFrom(start: RuntimeState, ops: seq<Op>)
    ensures var s := RunFrom(start, ops).store;
      && s.decisions == start.store.decisions + IssuedFrom(start, ops)
      && s.decisionCounter == start.store.decisionCounter + |IssuedFrom(start, ops)|
    ensures NumberedFrom(IssuedFrom(start, ops), start.store.decisionCounter)
  {
    hide Step, DecisionRecord, DecisionId;
    if ops != [] {
      var front, op := ops[..|ops| - 1], ops[|ops| - 1];
      DecisionsFrom(start, front);
      StepIssues(RunFrom(start, front), op);
    }
  }

  lemma {:induction false} CallIsIssued(start: RuntimeState, ops: seq<Op>, i: nat)
    requires i < |ops| && ops[i].DecideOp?
    ensures var k := |IssuedFrom(start, ops[..i])|;
      && k < |IssuedFrom(start, ops)|
      && IssuedFrom(start, ops)[k] == DecisionRecord(RunFrom(start, ops[..i]), ops[i].decide)
  {
    hide DecisionRecord, RunFrom;
    var front := ops[..|ops| - 1];
    assert front[..i] == ops[..i];
    if i < |front| {
      CallIsIssued(start, front, i);
    }
  }

  lemma {:induction false} IssuedHasCall(start: RuntimeState, ops: seq<Op>, k: nat) returns (i: nat)
    requires k < |IssuedFrom(start, ops)|
    ensures i < |ops| && ops[i].DecideOp?
    ensures IssuedFrom(start, ops)[k] == DecisionRecord(RunFrom(start, ops[..i]), ops[i].decide)
  {
    hide DecisionRecord, RunFrom;
    var front := ops[..|ops| - 1];
    if k < |IssuedFrom(start, front)| {
      i := IssuedHasCall(start, front, k);
      assert front[..i] == ops[..i];
    } else {
      i := |ops| - 1;
    }
  }

  /** The record a decide call writes is found under its id, unless the run started with that id already taken. */
  lemma IssuedIsFound(start: RuntimeState, ops: seq<Op>, i: nat)
    requires i < |ops| && ops[i].DecideOp?
    ensures var d := DecisionRecord(RunFrom(start, ops[..i]), ops[i].decide);
      var carried := FindDecision(start.store.decisions, d.decisionId);
      FindDecision(RunFrom(start, ops).store.decisions, d.decisionId) == if carried.Some? then carried else Some(d)
  {
    hide RunFrom, DecisionRecord, FindDecision, DecisionId;
    var d := DecisionRecord(RunFrom(start, ops[..i]), ops[i].decide);
    DecisionsFrom(start, ops);
    CallIsIssued(start, ops, i);
    FindNumbered(IssuedFrom(start, ops), start.store.decisionCounter, d.decisionId);
    FindAppended(start.store.decisions, IssuedFrom(start, ops), d.decisionId);
  }

  /** What is found after a run was there at its start or was issued by one of its decide calls. */
  lemma FoundHasSource(start: RuntimeState, ops: seq<Op>, id: string) returns (i: nat)
    requires FindDecision(start.store.decisions, id).None?
        && FindDecision(RunFrom(start, ops).store.decisions, id).Some?
    ensures i < |ops| && ops[i].DecideOp?
    ensures DecisionRecord(RunFrom(start, ops[..i]), ops[i].decide).decisionId == id
  {
    hide RunFrom, DecisionRecord, FindDecision, DecisionId;
    DecisionsFrom(start, ops);
    FindNumbered(IssuedFrom(start, ops), start.store.decisionCounter, id);
    FindAppended(start.store.decisions, IssuedFrom(start, ops), id);
    var k :| 0 <= k < |IssuedFrom(start, ops)| && IssuedFrom(start, ops)[k].decisionId == id;
    i := IssuedHasCall(start, ops, k);
  }

  // ----- ids the start has already taken -----

  /** No decision in the store carries an id that is yet to be allocated. */
  ghost predicate FreshIds(s: StoreState) {
    forall n: nat | n > s.decisionCounter :: FindDecision(s.decisions, DecisionId(n)).None?
  }

  function DecidesOnly(n: nat, p: DecideParams): seq<Op> {
    if n == 0 then [] else DecidesOnly(n - 1, p) + [DecideOp(p)]
  }

  lemma {:induction false} DecidesOnlyIssue(start: RuntimeState, n: nat, p: DecideParams)
    ensures |IssuedFrom(start, DecidesOnly(n, p))| == n
  {
    hide DecisionRecord, RunFrom;
    if n > 0 {
      DecidesOnlyIssue(start, n - 1, p);
      assert DecidesOnly(n, p)[..|DecidesOnly(n, p)| - 1] == DecidesOnly(n - 1, p);
    }
  }

  /** Exactly then every decision that any run issues is the one its id finds. */
  lemma FreshIdsAreExact(start: RuntimeState, p: DecideParams)
    ensures FreshIds(start.store)
       <==> forall ops: seq<Op> ::
              FindDecision(start.store.decisions, DecisionRecord(RunFrom(start, ops), p).decisionId).None?
  {
    hide RunFrom, DecisionRecord, FindDecision, DecisionId, IssuedFrom;
    forall ops: seq<Op>
      ensures DecisionRecord(RunFrom(start, ops), p).decisionId
           == DecisionId(start.store.decisionCounter + |IssuedFrom(start, ops)| + 1)
    {
      DecisionsFrom(start, ops);
      StepIssues(RunFrom(start, ops), DecideOp(p));
    }
    if n: nat :| n > start.store.decisionCounter && FindDecision(start.store.decisions, DecisionId(n)).Some? {
      var ops := DecidesOnly(n - start.store.decisionCounter - 1, p);
      DecidesOnlyIssue(start, n - start.store.decisionCounter - 1, p);
      assert DecisionRecord(RunFrom(start, ops), p).decisionId == DecisionId(n);
    }
  }

  /** No run takes an id early, so what a runtime writes from a new store always starts the next one with fresh ids. */
  lemma RunsKeepFreshIds(start: RuntimeState, ops: seq<Op>)
    requires FreshIds(start.store)
    ensures FreshIds(RunFrom(start, ops).store)
  {
    hide RunFrom, FindDecision, DecisionId, IssuedFrom;
    DecisionsFrom(start, ops);
    var more := IssuedFrom(start, ops);
    forall n: nat | n > start.store.decisionCounter + |more|
      ensures FindDecision(start.store.decisions + more, DecisionId(n)).None?
    {
      FindAppended(start.store.decisions, more, DecisionId(n));
      FindNumbered(more, start.store.decisionCounter, DecisionId(n));
      forall k | 0 <= k < |more| ensures more[k].decisionId != DecisionId(n) {
        DecisionIdInjective(start.store.decisionCounter + k + 1, n);
      }
    }
  }

  // ----- the gate in runtime terms -----

  /** Call `i` was a decide whose answer the request repeats: same id, same action, same version, verdict ALLOW. */
  ghost predicate AnsweredAllowFrom(start: RuntimeState, ops: seq<Op>, i: nat, req: Request)
    requires i < |ops|
  {
    && ops[i].DecideOp?
    && ops[i].decide.action == req.action
    && var r := Step(RunFrom(start, ops[..i]), ops[i]).1;
      && r.Ok? && r.value.Decided?
      && r.value.decisionId == req.decisionId
      && r.value.decision == ALLOW
      && r.value.stateVersion == req.expectedStateVersion
  }

  ghost predicate AnsweredAllow(ops: seq<Op>, i: nat, req: Request)
    requires i < |ops|
  {
    AnsweredAllowFrom(NEW_RUNTIME, ops, i, req)
  }

  /** The decision answers the request, and its bound version is the one its domain has now. */
  ghost predicate StillGood(rt: RuntimeState, d: StoredDecision, req: Request) {
    && d.verdict == ALLOW
    && d.action == req.action
    && d.stateVersion == req.expectedStateVersion
    && d.stateVersion == StateVersion(if SuspendedIn(rt, d.domain) then 1 else 0)
  }

  lemma VerdictNames()
    ensures Allow.Name() == ALLOW && Deny.Name() != ALLOW
  {
  }

  lemma GateOnFound(rt: RuntimeState, d: StoredDecision, req: Request)
    requires FindDecision(rt.store.decisions, req.decisionId) == Some(d) && SettledIn(rt, d.domain)
    ensures var r := ValidateExecution(None, rt.store, req); r.Ok? && (r.value.allowed <==> StillGood(rt, d, req))
  {
    hide FindDecision, StateVersion, Coherent, Uniform;
  }

  /** A version bound by an ALLOW is the initial one, so it is current exactly while the domain is still active. */
  lemma GateOnCall(start: RuntimeState, ops: seq<Op>, i: nat, req: Request)
    requires Agrees(start)
    requires i < |ops| && ops[i].DecideOp?
    requires DecisionRecord(RunFrom(start, ops[..i]), ops[i].decide).decisionId == req.decisionId
    requires FindDecision(start.store.decisions, req.decisionId).None?
    ensures var rt := RunFrom(start, ops); var r := ValidateExecution(None, rt.store, req);
      && r.Ok?
      && (r.value.allowed <==>
            AnsweredAllowFrom(start, ops, i, req) && !SuspendedIn(rt, ops[i].decide.domain))
  {
    hide Agrees, RunFrom, FindDecision, DecisionId, StateVersion, CausalChain, DecisionTrail, Decision.Name, Coherent,
      Uniform, ValidateExecution;
    var d, rt := ops[i].decide.domain, RunFrom(start, ops);
    SuspensionFrom(start, ops[..i], d);
    SuspensionFrom(start, ops, d);
    IssuedIsFound(start, ops, i);
    GateOnFound(rt, DecisionRecord(RunFrom(start, ops[..i]), ops[i].decide), req);
    VerdictNames();
    StateVersionInjective(0, 1);
  }

  /**
   Execution binding from any runtime that agrees with its log. An id that the
   start had already taken is judged by the decision it named then; any other is
   allowed exactly when some decide call gave that very answer and its domain's
   authorization is still active, whatever happened in other domains.
   */
  lemma ExecutionBindingFrom(start: RuntimeState, ops: seq<Op>, req: Request)
    requires Agrees(start)
    ensures var rt := RunFrom(start, ops); var r := ValidateExecution(None, rt.store, req);
      var carried := FindDecision(start.store.decisions, req.decisionId);
      && r.Ok?
      && (r.value.allowed <==>
            if carried.Some? then StillGood(rt, carried.value, req)
            else exists i: nat | i < |ops| ::
                   AnsweredAllowFrom(start, ops, i, req) && !SuspendedIn(rt, ops[i].decide.domain))
  {
    hide Agrees, RunFrom, Step, FindDecision, DecisionRecord, StateVersion, DecisionId, StillGood, SuspendedIn,
      SettledIn;
    var rt, carried := RunFrom(start, ops), FindDecision(start.store.decisions, req.decisionId);
    DecisionsFrom(start, ops);
    FindAppended(start.store.decisions, IssuedFrom(start, ops), req.decisionId);
    if carried.Some? {
      SuspensionFrom(start, ops, carried.value.domain);
      GateOnFound(rt, carried.value, req);
    } else {
      forall i: nat | i < |ops| && AnsweredAllowFrom(start, ops, i, req)
        ensures ValidateExecution(None, rt.store, req).value.allowed <==> !SuspendedIn(rt, ops[i].decide.domain)
      {
        AnswerIsRecord(start, ops, i, req);
        GateOnCall(start, ops, i, req);
      }
      if FindDecision(rt.store.decisions, req.decisionId).Some? {
        var i := FoundHasSource(start, ops, req.decisionId);
        GateOnCall(start, ops, i, req);
      }
    }
  }

  lemma AnswerIsRecord(start: RuntimeState, ops: seq<Op>, i: nat, req: Request)
    requires i < |ops| && AnsweredAllowFrom(start, ops, i, req)
    ensures ops[i].DecideOp?
    ensures DecisionRecord(RunFrom(start, ops[..i]), ops[i].decide).decisionId == req.decisionId
  {
    hide RunFrom, DecisionRecord;
  }

  /**
   Execution binding over runtime runs: the gate allows exactly when some
   decide call of the run gave that very answer and its domain's authorization
   is still active, whatever happened in other domains.
   */
  lemma RuntimeExecutionBinding(ops: seq<Op>, req: Request)
    ensures var r := ValidateExecution(None, Run(ops).store, req);
      && r.Ok?
      && (r.value.allowed <==>
            exists i: nat | i < |ops| ::
              && AnsweredAllow(ops, i, req)
              && DomainOf(Run(ops).domains, ops[i].decide.domain).kernel.state.authorization.AuthorizationActive?)
  {
    hide Agrees, RunFrom, ValidateExecution, AnsweredAllowFrom;
    NewRuntimeAgrees();
    ExecutionBindingFrom(NEW_RUNTIME, ops, req);
    assert forall i: nat | i < |ops| :: AnsweredAllow(ops, i, req) <==> AnsweredAllowFrom(NEW_RUNTIME, ops, i, req);
  }

  /** Every stored decision of a run from nothing was issued by some decide call of the run. */
  lemma DecisionHasCall(ops: seq<Op>, d: StoredDecision) returns (i: nat)
    requires d in Run(ops).store.decisions
    ensures i < |ops| && ops[i].DecideOp? && d == DecisionRecord(Run(ops[..i]), ops[i].decide)
  {
    hide RunFrom, DecisionRecord;
    DecisionsFrom(NEW_RUNTIME, ops);
    var k :| 0 <= k < |IssuedFrom(NEW_RUNTIME, ops)| && IssuedFrom(NEW_RUNTIME, ops)[k] == d;
    i := IssuedHasCall(NEW_RUNTIME, ops, k);
  }

  // ----- outcomes -----

  /** A decision is bound to the initial version, or to the suspended one and then its domain stays suspended. */
  ghost predicate Versioned(rt: RuntimeState, d: StoredDecision) {
    || d.stateVersion == StateVersion(0)
    || (d.stateVersion == StateVersion(1) && StateCounter(rt.store.versions, d.domain) == 1)
  }

  /**
   An outcome names a stored decision of the same domain, and was recorded under
   the version that decision is bound to, unless the domain was suspended in between.
   */
  ghost predicate Linked(rt: RuntimeState, o: StoredOutcome) {
    exists d | d in rt.store.decisions ::
      && d.decisionId == o.decisionId && d.domain == o.domain
      && (o.stateVersion == d.stateVersion || (d.stateVersion == StateVersion(0) && o.stateVersion == StateVersion(1)))
  }

  lemma VersionIsBinary(ops: seq<Op>, d: DomainKey)
    ensures StateCounter(Run(ops).store.versions, d) == if SuspendedBy(ops, d) then 1 else 0
  {
    hide Run, SuspendedBy, Coherent, Uniform;
    SuspensionClosedForm(ops, d);
  }

  lemma DecisionsAreVersioned(ops: seq<Op>)
    ensures forall d | d in Run(ops).store.decisions :: Versioned(Run(ops), d)
  {
    hide StateVersion, SuspendedBy, Run;
    forall d | d in Run(ops).store.decisions ensures Versioned(Run(ops), d) {
      var i := DecisionHasCall(ops, d);
      VersionIsBinary(ops[..i], d.domain);
      VersionIsBinary(ops, d.domain);
      assert ops[..i] + ops[i..] == ops;
      if SuspendedBy(ops[..i], d.domain) {
        SuspendedByGrows(ops[..i], ops[i..], d.domain);
      }
    }
  }

  lemma {:induction false} FoundIsStored(decisions: seq<StoredDecision>, id: string)
    ensures FindDecision(decisions, id).Some? ==>
              FindDecision(decisions, id).value in decisions && FindDecision(decisions, id).value.decisionId == id
  {
    if decisions != [] {
      FoundIsStored(decisions[1..], id);
    }
  }

  lemma NewOutcomeIsLinked(ops: seq<Op>, p: OutcomeParams)
    ensures var (s, r) := OutcomeTool(Run(ops).store, p);
      && s.decisions == Run(ops).store.decisions
      && (if r.Ok? then
            |s.outcomes| == |Run(ops).store.outcomes| + 1 && s.outcomes[..|s.outcomes| - 1] == Run(ops).store.outcomes
            && Linked(Run(ops), s.outcomes[|s.outcomes| - 1])
          else s == Run(ops).store)
  {
    hide Run, StateVersion, OutcomeId, FindDecision, SuspendedBy, OutcomeKind.Name;
    FoundIsStored(Run(ops).store.decisions, p.decisionId);
    var found := FindDecision(Run(ops).store.decisions, p.decisionId);
    if found.Some? {
      DecisionsAreVersioned(ops);
      assert Versioned(Run(ops), found.value);
      VersionIsBinary(ops, found.value.domain);
    }
  }

  lemma LinkedPersists(a: RuntimeState, b: RuntimeState, o: StoredOutcome)
    requires Linked(a, o) && a.store.decisions <= b.store.decisions
    ensures Linked(b, o)
  {
    hide StateVersion;
    var d :| d in a.store.decisions && d.decisionId == o.decisionId && d.domain == o.domain
      && (o.stateVersion == d.stateVersion || (d.stateVersion == StateVersion(0) && o.stateVersion == StateVersion(1)));
    assert d in b.store.decisions;
  }

  /** In every run, every recorded outcome is linked. */
  lemma {:induction false} OutcomesAreLinked(ops: seq<Op>)
    ensures forall o | o in Run(ops).store.outcomes :: Linked(Run(ops), o)
  {
    hide ObserveTool, DecideTool, OutcomeTool, ReplayTool, ExplainTool, Linked;
    if ops != [] {
      var front, op := ops[..|ops| - 1], ops[|ops| - 1];
      OutcomesAreLinked(front);
      StepKeepsDecisions(Run(front), op);
      if op.OutcomeOp? { NewOutcomeIsLinked(front, op.record); }
      OutcomesOf(Run(front), op);
      forall o | o in Run(ops).store.outcomes ensures Linked(Run(ops), o) {
        LinkedPersists(Run(front), Run(ops), o);
      }
    }
  }

  lemma OutcomesOf(rt: RuntimeState, op: Op)
    ensures !op.OutcomeOp? ==> Step(rt, op).0.store.outcomes == rt.store.outcomes
  {
    hide ObservedEvent, ObserveDomain, DecisionRecord, ReplayTool, ExplainTool;
  }

  // ----- which ids are known, and what the outcome log says -----

  function Decides(ops: seq<Op>): nat {
    if ops == [] then 0 else Decides(ops[..|ops| - 1]) + if ops[|ops| - 1].DecideOp? then 1 else 0
  }

  /** Call `i` is the decide call that was answered with `id`. */
  ghost predicate Caller(ops: seq<Op>, i: nat, id: string)
    requires i < |ops|
  {
    ops[i].DecideOp? && id == DecisionId(Decides(ops[..i]) + 1)
  }

  lemma {:induction false} OneDecisionPerDecide(start: RuntimeState, ops: seq<Op>)
    ensures |IssuedFrom(start, ops)| == Decides(ops)
  {
    hide DecisionRecord, RunFrom;
    if ops != [] {
      OneDecisionPerDecide(start, ops[..|ops| - 1]);
    }
  }

  lemma CallerIsFound(ops: seq<Op>, i: nat, id: string)
    requires i < |ops| && ops[i].DecideOp?
    ensures Caller(ops, i, id) <==> DecisionRecord(Run(ops[..i]), ops[i].decide).decisionId == id
    ensures Caller(ops, i, id) ==>
              FindDecision(Run(ops).store.decisions, id) == Some(DecisionRecord(Run(ops[..i]), ops[i].decide))
  {
    hide RunFrom, FindDecision, DecisionId, DecisionRecord;
    var rt := Run(ops[..i]);
    DecisionsFrom(NEW_RUNTIME, ops[..i]);
    OneDecisionPerDecide(NEW_RUNTIME, ops[..i]);
    StepIssues(rt, ops[i]);
    IssuedIsFound(NEW_RUNTIME, ops, i);
    FindsNothing(NEW_RUNTIME.store.decisions, DecisionRecord(rt, ops[i].decide).decisionId);
  }

  lemma FoundHasCaller(ops: seq<Op>, id: string) returns (i: nat)
    requires FindDecision(Run(ops).store.decisions, id).Some?
    ensures i < |ops| && Caller(ops, i, id)
  {
    hide RunFrom, FindDecision, DecisionId, DecisionRecord, Caller;
    FindsNothing(NEW_RUNTIME.store.decisions, id);
    i := FoundHasSource(NEW_RUNTIME, ops, id);
    CallerIsFound(ops, i, id);
  }

  /**
   `record_outcome` and `explain` know exactly the ids that decide calls of the
   run were answered with; an outcome carries the version its decision's domain
   has now, and an explanation the record of that very call.
   */
  lemma KnownIdsAreAnswered(ops: seq<Op>, p: OutcomeParams)
    ensures var r := Step(Run(ops), OutcomeOp(p)).1; var x := Step(Run(ops), ExplainOp(p.decisionId)).1;
      && (r.Ok? <==> exists i: nat | i < |ops| :: Caller(ops, i, p.decisionId))
      && (x.Ok? <==> r.Ok?)
      && (r.Err? ==> r.error == x.error == UnknownDecisionId(p.decisionId))
      && (forall i: nat | i < |ops| && Caller(ops, i, p.decisionId) ::
            && r == Ok(OutcomeRecorded(OutcomeId(|Run(ops).store.outcomes| + 1), p.decisionId, p.outcome.Name(),
                                       StateVersion(if SuspendedBy(ops, ops[i].decide.domain) then 1 else 0)))
            && Step(Run(ops), OutcomeOp(p)).0.store.outcomes
               == Run(ops).store.outcomes + [
                    StoredOutcome(OutcomeId(|Run(ops).store.outcomes| + 1), p.decisionId, ops[i].decide.domain,
                                  p.outcome.Name(), p.detail,
                                  StateVersion(if SuspendedBy(ops, ops[i].decide.domain) then 1 else 0))]
            && x.value.record == DecisionRecord(Run(ops[..i]), ops[i].decide))
  {
    hide Run, FindDecision, DecisionId, OutcomeId, StateVersion, DecisionTrail, CausalChain, Decision.Name,
      OutcomeKind.Name, SuspendedBy, UniqueDomains;
    RunAgrees(ops);
    FoundIsStored(Run(ops).store.decisions, p.decisionId);
    if FindDecision(Run(ops).store.decisions, p.decisionId).Some? {
      var i := FoundHasCaller(ops, p.decisionId);
      assert Caller(ops, i, p.decisionId);
    }
    forall i: nat | i < |ops| && Caller(ops, i, p.decisionId)
      ensures FindDecision(Run(ops).store.decisions, p.decisionId) == Some(DecisionRecord(Run(ops[..i]), ops[i].decide))
      ensures DecisionRecord(Run(ops[..i]), ops[i].decide).domain == ops[i].decide.domain
      ensures StateCounter(Run(ops).store.versions, ops[i].decide.domain) == if SuspendedBy(ops, ops[i].decide.domain)
          then 1 else 0
    {
      CallerIsFound(ops, i, p.decisionId);
      VersionIsBinary(ops, ops[i].decide.domain);
    }
  }

  /** The outcome calls of a run that named an id already answered by then, in order. */
  ghost function Reported(ops: seq<Op>): seq<OutcomeParams> {
    if ops == [] then []
    else
      var front, op := ops[..|ops| - 1], ops[|ops| - 1];
      Reported(front) + if op.OutcomeOp? && exists i: nat | i < |front| :: Caller(front, i, op.record.decisionId)
        then [op.record] else []
  }

  /** Reads an outcome's name back. */
  function KindNamed(name: string): Option<OutcomeKind> {
    if name == "executed" then Some(Executed)
    else if name == "blocked" then Some(Blocked)
    else if name == "failed" then Some(Failed)
    else if name == "rolled_back" then Some(RolledBack)
    else if name == "user_corrected" then Some(UserCorrected)
    else if name == "policy_breach_confirmed" then Some(PolicyBreachConfirmed)
    else None
  }

  lemma KindNamedUndoesName(kind: OutcomeKind)
    ensures KindNamed(kind.Name()) == Some(kind)
  {
  }

  predicate SaysWhat(o: StoredOutcome, p: OutcomeParams) {
    o.decisionId == p.decisionId && KindNamed(o.outcome) == Some(p.outcome) && o.detail == p.detail
  }

  lemma OutcomeAppends(ops: seq<Op>, p: OutcomeParams)
    ensures var before, s := Run(ops).store.outcomes, OutcomeTool(Run(ops).store, p).0.outcomes;
      if exists i: nat | i < |ops| :: Caller(ops, i, p.decisionId)
      then |s| == |before| + 1 && s[..|before|] == before && SaysWhat(s[|before|], p)
      else s == before
  {
    hide Run, FindDecision, StateVersion, OutcomeId, OutcomeKind.Name, Caller, DecisionRecord, KindNamed;
    KindNamedUndoesName(p.outcome);
    KnownIdsAreAnswered(ops, p);
    FoundIsStored(Run(ops).store.decisions, p.decisionId);
  }

  /**
   The outcome log is the history of the successful outcome calls: one record each,
   in order, saying what the call said.
   */
  lemma {:induction false} OutcomeLogIsHistory(ops: seq<Op>)
    ensures |Run(ops).store.outcomes| == |Reported(ops)|
    ensures forall i | 0 <= i < |Reported(ops)| :: SaysWhat(Run(ops).store.outcomes[i], Reported(ops)[i])
  {
    hide ObserveTool, DecideTool, OutcomeTool, ReplayTool, ExplainTool, SaysWhat, Caller;
    if ops != [] {
      var front, op := ops[..|ops| - 1], ops[|ops| - 1];
      OutcomeLogIsHistory(front);
      OutcomesOf(Run(front), op);
      if op.OutcomeOp? {
        OutcomeAppends(front, op.record);
      }
    }
  }
}
