/**
 The admission experiment: a direct-threshold baseline and Evidence Admission
 v0.1 fed the same trace. Each arm is a loop over the rows; the ledgers and the
 comparison hold for every trace.
 */
module AdmissionCompare {
  import opened Wrappers
  import opened Admission

  const BASELINE_THRESHOLD_PPM := 850_000

  datatype RowKind = Repair | Judged

  datatype Truth = FalsePositive | Violation | Benign | Unlabelled

  datatype TraceRow = TraceRow(
    kind: RowKind, incident: string, confidence: nat, reliability: nat, corroborators: nat, observed: nat, expires: nat,
      truth: Truth)
  {
    predicate InRange() {
      confidence <= PPM && reliability <= PPM && observed <= expires
    }
  }

  /** A judged row outside these ranges makes the admission arm panic, so it is no value here. */
  type Row = r: TraceRow | r.kind.Judged? ==> r.InRange() witness TraceRow(Repair, "", 0, 0, 0, 0, 0, Unlabelled)

  datatype Metrics = Metrics(
    toolCalls: nat, allowed: nat, denied: nat, falseDenyCalls: nat, enforcementDenied: nat, violationAllowed: nat,
    suspensions: nat, falseSuspensions: nat, effectiveRepairs: nat,
    heldTotal: nat, heldResolvedAccept: nat, heldResolvedExpired: nat, heldPending: nat, provenanceLinks: nat)

  const NO_METRICS := Metrics(0, 0, 0, 0, 0, 0, 0, 0, 0, 0, 0, 0, 0, 0)

  /** One arm: its metrics and the truth of the row that caused the current suspension. */
  datatype Arm = Arm(m: Metrics, suspendedBy: Option<Truth>)

  function Decide(r: Row): AdmissionDecision
    requires r.kind.Judged?
  {
    Admit(BeyondScope, r.confidence, NewContext(r.reliability, r.corroborators, r.observed, r.expires))
  }

  /** A judged row that is strong or corroborated, by the published thresholds. */
  predicate Accepts(r: Row) {
    && r.kind.Judged?
    && (|| (r.confidence >= 900_000 && r.reliability >= 800_000)
        || (r.confidence >= 700_000 && r.reliability >= 700_000 && r.corroborators >= 2))
  }

  /** A judged row of a trusted source that is likely, but neither strong nor corroborated. */
  predicate Holds(r: Row) {
    r.kind.Judged? && r.confidence >= 600_000 && r.reliability >= 600_000 && !Accepts(r)
  }

  lemma DecideIsExact(r: Row)
    requires r.kind.Judged?
    ensures Decide(r).Accept? <==> Accepts(r)
    ensures Decide(r).Hold? <==> Holds(r)
  {
    hide Admit;
    PolicyIsExact(BeyondScope, r.confidence, NewContext(r.reliability, r.corroborators, r.observed, r.expires));
  }

  // ----- specification of one step of each arm -----

  function Repaired(a: Arm): Arm {
    if a.suspendedBy.None? then a
    else Arm(a.m.(effectiveRepairs := a.m.effectiveRepairs + 1, provenanceLinks := a.m.provenanceLinks + 2), None)
  }

  function Suspended(a: Arm, cause: Truth): Arm {
    if a.suspendedBy.Some? then a
    else
      Arm(a.m.(suspensions := a.m.suspensions + 1,
               falseSuspensions := a.m.falseSuspensions + if cause.FalsePositive? then 1 else 0),
          Some(cause))
  }

  function Judge(a: Arm, truth: Truth): Arm {
    a.(m :=
       if a.suspendedBy.None? then
         a.m.(allowed := a.m.allowed + 1, violationAllowed := a.m.violationAllowed + if truth.Violation? then 1 else 0)
       else if truth.Benign? && a.suspendedBy.value.FalsePositive? then
         a.m.(denied := a.m.denied + 1, falseDenyCalls := a.m.falseDenyCalls + 1)
       else if truth.Benign? then
         a.m.(denied := a.m.denied + 1, enforcementDenied := a.m.enforcementDenied + 1)
       else a.m.(denied := a.m.denied + 1))
  }

  function BaselineStep(a: Arm, r: Row): Arm {
    if r.kind.Repair? then Repaired(a)
    else
      var risky := r.confidence >= 850_000;
      var links := 2 + if risky && a.suspendedBy.None? then 1 else 0;
      var called := a.(m := a.m.(toolCalls := a.m.toolCalls + 1, provenanceLinks := a.m.provenanceLinks + links));
      Judge(if risky then Suspended(called, r.truth) else called, r.truth)
  }

  function Baseline(rows: seq<Row>): Arm {
    if rows == [] then Arm(NO_METRICS, None) else BaselineStep(Baseline(rows[..|rows| - 1]), rows[|rows| - 1])
  }

  datatype PendingHold = PendingHold(incident: string, expires: nat)

  datatype Trial = Trial(arm: Arm, pending: seq<PendingHold>)

  /** A later judged row of the same incident that is accepted, or observed past the hold's expiry, settles the hold. */
  predicate Settles(r: Row, h: PendingHold) {
    r.kind.Judged? && r.incident == h.incident && (Accepts(r) || r.observed > h.expires)
  }

  function Retained(pending: seq<PendingHold>, r: Row): seq<PendingHold> {
    if pending == [] then []
    else
      Retained(pending[..|pending| - 1], r)
      + if Settles(r, pending[|pending| - 1]) then [] else [pending[|pending| - 1]]
  }

  function Settled(pending: seq<PendingHold>, r: Row): nat {
    if pending == [] then 0
    else Settled(pending[..|pending| - 1], r) + if Settles(r, pending[|pending| - 1]) then 1 else 0
  }

  function AdmissionStep(t: Trial, r: Row): Trial {
    if r.kind.Repair? then t.(arm := Repaired(t.arm))
    else
      var n := Settled(t.pending, r);
      var m := t.arm.m;
      var m' := m.(
        toolCalls := m.toolCalls + 1,
        heldResolvedAccept := m.heldResolvedAccept + (if Accepts(r) then n else 0),
        heldResolvedExpired := m.heldResolvedExpired + (if Accepts(r) then 0 else n),
        heldTotal := m.heldTotal + (if Holds(r) then 1 else 0),
        provenanceLinks := m.provenanceLinks + if Accepts(r) then 5 else 4);
      var called := t.arm.(m := m');
      Trial(Judge(if Accepts(r) then Suspended(called, r.truth) else called, r.truth),
            Retained(t.pending, r) + if Holds(r) then [PendingHold(r.incident, r.expires)] else [])
  }

  function AdmissionArm(rows: seq<Row>): Trial {
    if rows == [] then Trial(Arm(NO_METRICS, None), [])
    else AdmissionStep(AdmissionArm(rows[..|rows| - 1]), rows[|rows| - 1])
  }

  // ----- the loops -----

  method RunBaseline(rows: seq<Row>) returns (m: Metrics, suspendedBy: Option<Truth>)
    ensures Arm(m, suspendedBy) == Baseline(rows)
  {
    m, suspendedBy := NO_METRICS, None;
    for i := 0 to |rows|
      invariant Arm(m, suspendedBy) == Baseline(rows[..i])
    {
      var r := rows[i];
      assert rows[..i + 1][..i] == rows[..i];
      if r.kind.Repair? {
        if suspendedBy.Some? {
          m := m.(effectiveRepairs := m.effectiveRepairs + 1, provenanceLinks := m.provenanceLinks + 2);
        }
        suspendedBy := None;
        continue;
      }
      m := m.(toolCalls := m.toolCalls + 1, provenanceLinks := m.provenanceLinks + 2);
      if r.confidence >= BASELINE_THRESHOLD_PPM && suspendedBy.None? {
        m := m.(suspensions := m.suspensions + 1, provenanceLinks := m.provenanceLinks + 1);
        if r.truth.FalsePositive? {
          m := m.(falseSuspensions := m.falseSuspensions + 1);
        }
        suspendedBy := Some(r.truth);
      }
      m := Record(m, suspendedBy, r.truth);
    }
    assert rows[..|rows|] == rows;
  }

  /** The verdict of one call, counted. */
  method Record(m: Metrics, suspendedBy: Option<Truth>, truth: Truth) returns (m': Metrics)
    ensures Arm(m', suspendedBy) == Judge(Arm(m, suspendedBy), truth)
  {
    m' := m;
    if suspendedBy.None? {
      m' := m'.(allowed := m'.allowed + 1);
      if truth.Violation? {
        m' := m'.(violationAllowed := m'.violationAllowed + 1);
      }
    } else {
      m' := m'.(denied := m'.denied + 1);
      if truth.Benign? {
        if suspendedBy == Some(FalsePositive) {
          m' := m'.(falseDenyCalls := m'.falseDenyCalls + 1);
        } else {
          m' := m'.(enforcementDenied := m'.enforcementDenied + 1);
        }
      }
    }
  }

  method RunAdmission(rows: seq<Row>) returns (m: Metrics, pending: seq<PendingHold>)
    ensures var t := AdmissionArm(rows);
      && m == t.arm.m.(heldPending := |t.pending|)
      && pending == t.pending
  {
    m, pending := NO_METRICS, [];
    var suspendedBy: Option<Truth> := None;
    for i := 0 to |rows|
      invariant Trial(Arm(m, suspendedBy), pending) == AdmissionArm(rows[..i])
    {
      var r := rows[i];
      assert rows[..i + 1][..i] == rows[..i];
      if r.kind.Repair? {
        if suspendedBy.Some? {
          m := m.(effectiveRepairs := m.effectiveRepairs + 1, provenanceLinks := m.provenanceLinks + 2);
        }
        suspendedBy := None;
        continue;
      }
      m, suspendedBy, pending := AdmissionCall(m, suspendedBy, pending, r);
    }
    assert rows[..|rows|] == rows;
    m := m.(heldPending := |pending|);
  }

  /** One judged row of the admission loop. */
  method AdmissionCall(before: Metrics, cause: Option<Truth>, held: seq<PendingHold>, r: Row)
    returns (m: Metrics, suspendedBy: Option<Truth>, pending: seq<PendingHold>)
    requires r.kind.Judged?
    ensures Trial(Arm(m, suspendedBy), pending) == AdmissionStep(Trial(Arm(before, cause), held), r)
  {
    hide Retained, Settled, Accepts, Holds;
    DecideIsExact(r);
    m, suspendedBy := before.(toolCalls := before.toolCalls + 1), cause;
    var decision := Decide(r);
    var byAccept, byExpiry;
    pending, byAccept, byExpiry := Retain(held, r);
    hide Decide;
    m := m.(heldResolvedAccept := m.heldResolvedAccept + byAccept,
            heldResolvedExpired := m.heldResolvedExpired + byExpiry);
    if decision.Hold? {
      m := m.(heldTotal := m.heldTotal + 1);
      pending := pending + [PendingHold(r.incident, r.expires)];
    }
    if decision.Accept? && suspendedBy.None? {
      m := m.(suspensions := m.suspensions + 1);
      if r.truth.FalsePositive? {
        m := m.(falseSuspensions := m.falseSuspensions + 1);
      }
      suspendedBy := Some(r.truth);
    }
    m := m.(provenanceLinks := m.provenanceLinks + if decision.Accept? then 5 else 4);
    m := Record(m, suspendedBy, r.truth);
  }

  /** The retain pass over the pending holds. */
  method Retain(pending: seq<PendingHold>, r: Row) returns (kept: seq<PendingHold>, byAccept: nat, byExpiry: nat)
    requires r.kind.Judged?
    ensures kept == Retained(pending, r)
    ensures byAccept == (if Accepts(r) then Settled(pending, r) else 0)
    ensures byExpiry == (if Accepts(r) then 0 else Settled(pending, r))
  {
    hide Decide, Accepts;
    DecideIsExact(r);
    kept, byAccept, byExpiry := [], 0, 0;
    for i := 0 to |pending|
      invariant kept == Retained(pending[..i], r)
      invariant byAccept == if Accepts(r) then Settled(pending[..i], r) else 0
      invariant byExpiry == if Accepts(r) then 0 else Settled(pending[..i], r)
    {
      var h := pending[i];
      assert pending[..i + 1][..i] == pending[..i];
      if h.incident != r.incident {
        kept := kept + [h];
      } else if Decide(r).Accept? {
        byAccept := byAccept + 1;
      } else if r.observed > h.expires {
        byExpiry := byExpiry + 1;
      } else {
        kept := kept + [h];
      }
    }
    assert pending[..|pending|] == pending;
  }

  // ----- the hold ledger -----

  lemma {:induction false} RetainPartitions(pending: seq<PendingHold>, r: Row)
    ensures |Retained(pending, r)| + Settled(pending, r) == |pending|
  {
    if pending != [] {
      RetainPartitions(pending[..|pending| - 1], r);
    }
  }

  /** Every hold is resolved by acceptance, resolved by expiry, or still pending: exactly one of the three. */
  lemma {:induction false} HoldLedger(rows: seq<Row>)
    ensures var t := AdmissionArm(rows);
      t.arm.m.heldTotal == t.arm.m.heldResolvedAccept + t.arm.m.heldResolvedExpired + |t.pending|
  {
    if rows != [] {
      hide Decide, Admit;
      HoldLedger(rows[..|rows| - 1]);
      RetainPartitions(AdmissionArm(rows[..|rows| - 1]).pending, rows[|rows| - 1]);
    }
  }

  function HoldOf(r: Row): PendingHold {
    PendingHold(r.incident, r.expires)
  }

  /** A later judged row of the same incident that is accepted, or observed past the held row's expiry. */
  predicate Ends(r: Row, held: Row) {
    r.kind.Judged? && r.incident == held.incident && (Accepts(r) || held.expires < r.observed)
  }

  lemma EndsIsSettles(r: Row, held: Row)
    ensures Ends(r, held) <==> Settles(r, HoldOf(held))
  {
    hide Accepts;
  }

  /** Row `i` held, and no later row ended that. */
  ghost predicate Open(rows: seq<Row>, i: nat)
    requires i < |rows|
  {
    Holds(rows[i]) && forall j | i < j < |rows| :: !Ends(rows[j], rows[i])
  }

  /** The holds among the first `n` rows that the whole trace leaves open, in trace order. */
  ghost function OpenHolds(rows: seq<Row>, n: nat): seq<PendingHold>
    requires n <= |rows|
  {
    if n == 0 then [] else OpenHolds(rows, n - 1) + if Open(rows, n - 1) then [HoldOf(rows[n - 1])] else []
  }

  lemma OpenInLongerTrace(rows: seq<Row>, r: Row, i: nat)
    requires i < |rows|
    ensures Open(rows + [r], i) <==> Open(rows, i) && !Ends(r, rows[i])
  {
    hide Ends;
    var all := rows + [r];
    if Open(rows, i) && !Ends(r, rows[i]) {
      forall j | i < j < |all| ensures !Ends(all[j], all[i]) {
        if j < |rows| { assert all[j] == rows[j]; }
      }
    }
    if Open(all, i) {
      assert !Ends(all[|rows|], all[i]);
      forall j | i < j < |rows| ensures !Ends(rows[j], rows[i]) { assert all[j] == rows[j]; }
    }
  }

  lemma {:induction false} RetainedAreOpen(rows: seq<Row>, r: Row, n: nat)
    requires n <= |rows|
    ensures OpenHolds(rows + [r], n) == Retained(OpenHolds(rows, n), r)
  {
    hide Settles, Open, Ends;
    if n > 0 {
      RetainedAreOpen(rows, r, n - 1);
      EndsIsSettles(r, rows[n - 1]);
      OpenInLongerTrace(rows, r, n - 1);
      var earlier, h := OpenHolds(rows, n - 1), HoldOf(rows[n - 1]);
      assert (earlier + [h])[..|earlier|] == earlier && (earlier + [h])[|earlier|] == h;
      assert (rows + [r])[n - 1] == rows[n - 1];
      assert earlier + [] == earlier && Retained(earlier, r) + [] == Retained(earlier, r);
    }
  }

  lemma RepairSettlesNothing(pending: seq<PendingHold>, r: Row)
    requires r.kind.Repair?
    ensures Retained(pending, r) == pending
    decreases |pending|
  {
    if pending != [] {
      RepairSettlesNothing(pending[..|pending| - 1], r);
    }
  }

  /** The final pending list is exactly the open holds, in trace order. */
  lemma {:induction false} PendingAreOpenHolds(rows: seq<Row>)
    ensures AdmissionArm(rows).pending == OpenHolds(rows, |rows|)
  {
    if rows != [] {
      hide Decide, Settles;
      var front, r := rows[..|rows| - 1], rows[|rows| - 1];
      PendingAreOpenHolds(front);
      RetainedAreOpen(front, r, |front|);
      assert front + [r] == rows;
      if r.kind.Repair? {
        RepairSettlesNothing(OpenHolds(front, |front|), r);
      }
    }
  }

  /** Row `i` held, and the first later row to settle it accepted, or did not and so expired it. */
  ghost predicate SettledBy(rows: seq<Row>, i: nat, accepted: bool)
    requires i < |rows|
  {
    && Holds(rows[i])
    && exists j | i < j < |rows| ::
         && Ends(rows[j], rows[i]) && Accepts(rows[j]) == accepted
         && forall k | i < k < j :: !Ends(rows[k], rows[i])
  }

  /** How many of the first `n` rows the whole trace settles this way. */
  ghost function CountSettled(rows: seq<Row>, n: nat, accepted: bool): nat
    requires n <= |rows|
  {
    if n == 0 then 0 else CountSettled(rows, n - 1, accepted) + if SettledBy(rows, n - 1, accepted) then 1 else 0
  }

  lemma SettledInLongerTrace(rows: seq<Row>, r: Row, i: nat, accepted: bool)
    requires i < |rows|
    ensures SettledBy(rows + [r], i, accepted)
       <==> SettledBy(rows, i, accepted) || (Open(rows, i) && Ends(r, rows[i]) && Accepts(r) == accepted)
    ensures !(SettledBy(rows, i, accepted) && Open(rows, i))
  {
    hide Ends, Holds, Accepts;
    var all, h := rows + [r], rows[i];
    assert all[|rows|] == r && forall j | 0 <= j < |rows| :: all[j] == rows[j];
    if Holds(rows[i]) && SettledBy(rows, i, accepted) {
      var j :| i < j < |rows| && Ends(rows[j], h) && Accepts(rows[j]) == accepted
        && forall k | i < k < j :: !Ends(rows[k], h);
      assert Ends(all[j], h) && forall k | i < k < j :: all[k] == rows[k];
    }
    if Open(rows, i) && Ends(r, h) && Accepts(r) == accepted {
      assert Ends(all[|rows|], h);
    }
    if SettledBy(all, i, accepted) {
      var j :| i < j < |all| && Ends(all[j], h) && Accepts(all[j]) == accepted
        && forall k | i < k < j :: !Ends(all[k], h);
      if j < |rows| {
        assert Ends(rows[j], h) && forall k | i < k < j :: all[k] == rows[k];
      } else {
        assert forall k | i < k < |rows| :: all[k] == rows[k];
      }
    }
  }

  lemma {:induction false} SettlingAddsUp(rows: seq<Row>, r: Row, n: nat, accepted: bool)
    requires n <= |rows|
    ensures CountSettled(rows + [r], n, accepted)
         == CountSettled(rows, n, accepted) + if Accepts(r) == accepted then Settled(OpenHolds(rows, n), r) else 0
  {
    hide Settles, Open, SettledBy, Accepts, Ends;
    if n > 0 {
      EndsIsSettles(r, rows[n - 1]);
      SettlingAddsUp(rows, r, n - 1, accepted);
      SettledInLongerTrace(rows, r, n - 1, accepted);
      var earlier, h := OpenHolds(rows, n - 1), HoldOf(rows[n - 1]);
      assert (earlier + [h])[..|earlier|] == earlier && (earlier + [h])[|earlier|] == h;
      assert earlier + [] == earlier;
    }
  }

  lemma StepResolves(rows: seq<Row>)
    requires rows != []
    ensures var t, r := AdmissionArm(rows[..|rows| - 1]), rows[|rows| - 1]; var m := AdmissionArm(rows).arm.m;
      && m.heldResolvedAccept == t.arm.m.heldResolvedAccept + (if Accepts(r) then Settled(t.pending, r) else 0)
      && m.heldResolvedExpired == t.arm.m.heldResolvedExpired + (if Accepts(r) then 0 else Settled(t.pending, r))
  {
    hide Decide, Settled, Retained, Holds, Accepts;
    var r := rows[|rows| - 1];
    if r.kind.Repair? {
      var pending := AdmissionArm(rows[..|rows| - 1]).pending;
      RepairSettlesNothing(pending, r);
      RetainPartitions(pending, r);
    }
  }

  /** Each resolved hold is counted on the side of the row that settled it first. */
  lemma {:induction false} ResolutionsAreExact(rows: seq<Row>)
    ensures AdmissionArm(rows).arm.m.heldResolvedAccept == CountSettled(rows, |rows|, true)
    ensures AdmissionArm(rows).arm.m.heldResolvedExpired == CountSettled(rows, |rows|, false)
  {
    if rows != [] {
      hide AdmissionStep, Accepts, Settles, Holds, SettledBy, CountSettled, OpenHolds, Settled;
      StepResolves(rows);
      var n := |rows| - 1;
      var front, r := rows[..n], rows[n];
      ResolutionsAreExact(front);
      PendingAreOpenHolds(front);
      assert front + [r] == rows;
      LastRowIsUnsettled(front, r, true);
      LastRowIsUnsettled(front, r, false);
      SettlingAddsUp(front, r, n, true);
      SettlingAddsUp(front, r, n, false);
    }
  }

  lemma LastRowIsUnsettled(front: seq<Row>, r: Row, accepted: bool)
    ensures CountSettled(front + [r], |front| + 1, accepted) == CountSettled(front + [r], |front|, accepted)
  {
    hide Settles, Holds, Accepts;
  }

  // ----- what suspends an arm, and whom it denies -----

  /** A row that suspends its arm when nothing else has. */
  predicate Triggers(baseline: bool, r: Row) {
    if baseline then r.kind.Judged? && r.confidence >= 850_000 else Accepts(r)
  }

  /** Row `i` is the first trigger after the last repair. */
  ghost predicate Causes(baseline: bool, rows: seq<Row>, i: nat)
    requires i < |rows|
  {
    && Triggers(baseline, rows[i])
    && (forall j | i < j < |rows| :: rows[j].kind.Judged?)
    && forall j | 0 <= j < i && Triggers(baseline, rows[j]) :: RepairBetween(rows, j, i)
  }

  ghost predicate RepairBetween(rows: seq<Row>, j: int, i: int)
    requires 0 <= j && i <= |rows|
  {
    exists k | j < k < i :: rows[k].kind.Repair?
  }

  function ArmOf(baseline: bool, rows: seq<Row>): Arm {
    if baseline then Baseline(rows) else AdmissionArm(rows).arm
  }

  /** The arm is suspended exactly when something causes it, and remembers the truth of that row. */
  ghost predicate CauseKnown(baseline: bool, rows: seq<Row>, cause: Option<Truth>) {
    && (cause.None? <==> forall i: nat | i < |rows| :: !Causes(baseline, rows, i))
    && (forall i: nat | i < |rows| && Causes(baseline, rows, i) :: cause == Some(rows[i].truth))
  }

  function NextCause(baseline: bool, cause: Option<Truth>, r: Row): Option<Truth> {
    if r.kind.Repair? then None else if cause.None? && Triggers(baseline, r) then Some(r.truth) else cause
  }

  lemma StepCause(baseline: bool, rows: seq<Row>)
    requires rows != []
    ensures ArmOf(baseline, rows).suspendedBy
        == NextCause(baseline, ArmOf(baseline, rows[..|rows| - 1]).suspendedBy, rows[|rows| - 1])
  {
    hide Decide, Holds, Retained, Settled;
  }

  /** An earlier cause stays the cause unless the new row is a repair. */
  lemma CausesInLongerTrace(baseline: bool, rows: seq<Row>, r: Row, i: nat)
    requires i < |rows|
    ensures Causes(baseline, rows + [r], i) <==> Causes(baseline, rows, i) && r.kind.Judged?
  {
    hide Triggers;
    var all := rows + [r];
    assert all[|rows|] == r && forall j | 0 <= j < |rows| :: all[j] == rows[j];
    forall j | 0 <= j < i ensures RepairBetween(all, j, i) <==> RepairBetween(rows, j, i) {
      if RepairBetween(all, j, i) { var k :| j < k < i && all[k].kind.Repair?; assert rows[k].kind.Repair?; }
      if RepairBetween(rows, j, i) { var k :| j < k < i && rows[k].kind.Repair?; assert all[k].kind.Repair?; }
    }
  }

  /** Without a cause, every trigger so far has been repaired. */
  lemma {:induction false} UncausedIsRepaired(baseline: bool, rows: seq<Row>, j: nat)
    requires j < |rows| && Triggers(baseline, rows[j])
    requires forall i: nat | i < |rows| :: !Causes(baseline, rows, i)
    ensures RepairBetween(rows, j, |rows|)
  {
    hide Triggers;
    TriggersAreJudged(baseline, rows[j]);
    assert !Causes(baseline, rows, j);
    if !RepairBetween(rows, j, |rows|) {
      if i: nat :| i < j && Triggers(baseline, rows[i]) && !RepairBetween(rows, i, j) {
        UncausedIsRepaired(baseline, rows, i);
      }
    }
  }

  lemma TriggersAreJudged(baseline: bool, r: Row)
    ensures Triggers(baseline, r) ==> r.kind.Judged?
  {
  }

  /** In each arm: suspended exactly when some trigger has had no repair since, and by the first such trigger. */
  lemma {:induction false} CauseIsFirstTrigger(baseline: bool, rows: seq<Row>)
    ensures CauseKnown(baseline, rows, ArmOf(baseline, rows).suspendedBy)
  {
    hide ArmOf, Triggers, Causes;
    if rows == [] {
      assert ArmOf(baseline, []).suspendedBy.None? by { NothingCauses(baseline); }
    } else {
      var n := |rows| - 1;
      var front, r := rows[..n], rows[n];
      CauseIsFirstTrigger(baseline, front);
      StepCause(baseline, rows);
      assert front + [r] == rows;
      forall i: nat | i < n ensures Causes(baseline, rows, i) <==> Causes(baseline, front, i) && r.kind.Judged? {
        CausesInLongerTrace(baseline, front, r, i);
      }
      LastRowCauses(baseline, front, r);
      TriggersAreJudged(baseline, r);
    }
  }

  lemma NothingCauses(baseline: bool)
    ensures ArmOf(baseline, []).suspendedBy.None?
  {
  }

  lemma LastRowCauses(baseline: bool, front: seq<Row>, r: Row)
    ensures Causes(baseline, front + [r], |front|)
       <==> Triggers(baseline, r) && forall i: nat | i < |front| :: !Causes(baseline, front, i)
  {
    var rows := front + [r];
    hide Triggers;
    if Triggers(baseline, r) && forall i: nat | i < |front| :: !Causes(baseline, front, i) {
      forall j | 0 <= j < |front| && Triggers(baseline, rows[j]) ensures RepairBetween(rows, j, |front|) {
        UncausedIsRepaired(baseline, front, j);
        var k :| j < k < |front| && front[k].kind.Repair?;
        assert rows[k].kind.Repair?;
      }
    }
    if i: nat :| i < |front| && Causes(baseline, front, i) {
      assert forall k | i <= k < |front| :: rows[k] == front[k];
    }
  }

  /** The judged row at the end is denied, and by a suspension that a row of truth `cause` caused. */
  ghost predicate DeniedBy(baseline: bool, rows: seq<Row>, cause: Truth) {
    && rows != [] && rows[|rows| - 1].kind.Judged?
    && exists i: nat | i < |rows| :: Causes(baseline, rows, i) && rows[i].truth == cause
  }

  /** Benign calls denied under a false positive, or under anything else, counted on the trace alone. */
  ghost function BlastRadius(baseline: bool, rows: seq<Row>, falsePositive: bool): nat {
    if rows == [] then 0
    else
      BlastRadius(baseline, rows[..|rows| - 1], falsePositive)
      + if && rows[|rows| - 1].truth.Benign?
           && exists cause: Truth :: DeniedBy(baseline, rows, cause) && cause.FalsePositive? == falsePositive
        then 1 else 0
  }

  lemma StepBlast(baseline: bool, rows: seq<Row>)
    requires rows != []
    ensures var m, a, r := ArmOf(baseline, rows[..|rows| - 1]).m, ArmOf(baseline, rows), rows[|rows| - 1];
      && a.m.falseDenyCalls == m.falseDenyCalls
           + (if r.kind.Judged? && r.truth.Benign? && a.suspendedBy == Some(FalsePositive) then 1 else 0)
      && a.m.enforcementDenied == m.enforcementDenied
           + (if r.kind.Judged? && r.truth.Benign? && a.suspendedBy.Some? && a.suspendedBy != Some(FalsePositive)
              then 1 else 0)
  {
    hide Decide, Holds, Retained, Settled;
  }

  /**
   In each arm the two benign-denial counts are exactly the calls whose suspension a
   false positive caused, and the rest.
   */
  lemma {:induction false} BlastRadiusIsExact(baseline: bool, rows: seq<Row>)
    ensures ArmOf(baseline, rows).m.falseDenyCalls == BlastRadius(baseline, rows, true)
    ensures ArmOf(baseline, rows).m.enforcementDenied == BlastRadius(baseline, rows, false)
  {
    if rows != [] {
      hide ArmOf, Causes;
      BlastRadiusIsExact(baseline, rows[..|rows| - 1]);
      StepBlast(baseline, rows);
      CauseIsFirstTrigger(baseline, rows);
      var a := ArmOf(baseline, rows);
      if a.suspendedBy.Some? && rows[|rows| - 1].kind.Judged? {
        assert DeniedBy(baseline, rows, a.suspendedBy.value);
      }
    } else {
      assert ArmOf(baseline, []).m == NO_METRICS;
    }
  }

  /** Violations let through: judged violations at which no trigger stands unrepaired. */
  ghost function Missed(baseline: bool, rows: seq<Row>): nat {
    if rows == [] then 0
    else
      Missed(baseline, rows[..|rows| - 1])
      + if && rows[|rows| - 1].kind.Judged? && rows[|rows| - 1].truth.Violation?
           && (forall i: nat | i < |rows| :: !Causes(baseline, rows, i)) then 1 else 0
  }

  /** Suspensions a false positive caused: rows that became, when they arrived, the first unrepaired trigger. */
  ghost function FalseStarts(baseline: bool, rows: seq<Row>): nat {
    if rows == [] then 0
    else
      FalseStarts(baseline, rows[..|rows| - 1])
      + if rows[|rows| - 1].truth.FalsePositive? && Causes(baseline, rows, |rows| - 1) then 1 else 0
  }

  lemma StepMisses(baseline: bool, rows: seq<Row>)
    requires rows != []
    ensures var before, a, r := ArmOf(baseline, rows[..|rows| - 1]), ArmOf(baseline, rows), rows[|rows| - 1];
      && a.m.violationAllowed == before.m.violationAllowed
           + (if r.kind.Judged? && r.truth.Violation? && a.suspendedBy.None? then 1 else 0)
      && a.m.falseSuspensions == before.m.falseSuspensions
           + (if Triggers(baseline, r) && before.suspendedBy.None? && r.truth.FalsePositive? then 1 else 0)
  {
    hide Decide, Holds, Retained, Settled;
  }

  /** In each arm the missed violations and the false suspensions are exactly those of the trace. */
  lemma {:induction false} MissesAreExact(baseline: bool, rows: seq<Row>)
    ensures ArmOf(baseline, rows).m.violationAllowed == Missed(baseline, rows)
    ensures ArmOf(baseline, rows).m.falseSuspensions == FalseStarts(baseline, rows)
  {
    if rows != [] {
      hide ArmOf, Causes, Triggers;
      var front, r := rows[..|rows| - 1], rows[|rows| - 1];
      MissesAreExact(baseline, front);
      StepMisses(baseline, rows);
      CauseIsFirstTrigger(baseline, front);
      CauseIsFirstTrigger(baseline, rows);
      LastRowCauses(baseline, front, r);
      assert front + [r] == rows;
    } else {
      assert ArmOf(baseline, []).m == NO_METRICS;
    }
  }

  function JudgedRows(rows: seq<Row>): nat {
    if rows == [] then 0 else JudgedRows(rows[..|rows| - 1]) + if rows[|rows| - 1].kind.Judged? then 1 else 0
  }

  ghost predicate Standing(baseline: bool, rows: seq<Row>) {
    exists i: nat | i < |rows| :: Causes(baseline, rows, i)
  }

  /** Denied calls: judged rows at which a trigger stands unrepaired, their own included. */
  ghost function Denials(baseline: bool, rows: seq<Row>): nat {
    if rows == [] then 0
    else
      Denials(baseline, rows[..|rows| - 1])
      + if rows[|rows| - 1].kind.Judged? && Standing(baseline, rows) then 1 else 0
  }

  /** Effective repairs: repairs of a trigger that stood until then. */
  ghost function Mended(baseline: bool, rows: seq<Row>): nat {
    if rows == [] then 0
    else
      Mended(baseline, rows[..|rows| - 1])
      + if rows[|rows| - 1].kind.Repair? && Standing(baseline, rows[..|rows| - 1]) then 1 else 0
  }

  /** In each arm the calls, the denials and the effective repairs are exactly those of the trace. */
  lemma {:induction false} CallsAreExact(baseline: bool, rows: seq<Row>)
    ensures ArmOf(baseline, rows).m.toolCalls == JudgedRows(rows)
    ensures ArmOf(baseline, rows).m.denied == Denials(baseline, rows)
    ensures ArmOf(baseline, rows).m.effectiveRepairs == Mended(baseline, rows)
  {
    if rows != [] {
      hide ArmOf, Causes;
      CallsAreExact(baseline, rows[..|rows| - 1]);
      StepCounts(baseline, rows);
      CauseIsFirstTrigger(baseline, rows[..|rows| - 1]);
      CauseIsFirstTrigger(baseline, rows);
    } else {
      assert ArmOf(baseline, []).m == NO_METRICS;
    }
  }

  /** A row of a source below the trust floor never suspends the admission arm, and joins no holds. */
  lemma UntrustedRowsAreInert(rows: seq<Row>, i: nat)
    requires i < |rows| && rows[i].kind.Judged? && rows[i].reliability < 600_000
    ensures !Causes(false, rows, i) && !Open(rows, i)
    ensures AdmissionArm(rows[..i + 1]).arm.suspendedBy == AdmissionArm(rows[..i]).arm.suspendedBy
    ensures |AdmissionArm(rows[..i + 1]).pending| <= |AdmissionArm(rows[..i]).pending|
  {
    hide Retained, Settled, Decide;
    var before, now := rows[..i], rows[..i + 1];
    assert now[..|now| - 1] == before;
    RetainPartitions(AdmissionArm(before).pending, rows[i]);
  }

  // ----- the suspension ledger of each arm -----

  predicate Balanced(a: Arm) {
    && a.m.suspensions == a.m.effectiveRepairs + (if a.suspendedBy.Some? then 1 else 0)
    && a.m.allowed + a.m.denied == a.m.toolCalls
    && a.m.falseSuspensions <= a.m.suspensions
    && a.m.falseDenyCalls + a.m.enforcementDenied <= a.m.denied
    && a.m.violationAllowed <= a.m.allowed
  }

  function AcceptedRows(rows: seq<Row>): nat {
    if rows == [] then 0 else AcceptedRows(rows[..|rows| - 1]) + if Accepts(rows[|rows| - 1]) then 1 else 0
  }

  lemma BaselineStepBalances(a: Arm, r: Row)
    requires Balanced(a)
    ensures Balanced(BaselineStep(a, r))
  {
  }

  lemma AdmissionStepBalances(t: Trial, r: Row)
    requires Balanced(t.arm)
    ensures Balanced(AdmissionStep(t, r).arm)
  {
    hide Decide, Accepts, Holds, Retained, Settled;
  }

  lemma NewArmsBalance()
    ensures Balanced(Arm(NO_METRICS, None))
  {
  }

  /** Each row's links: what a step adds to the provenance ledger, beside the suspensions and repairs it counts. */
  lemma StepLinks(a: Arm, t: Trial, r: Row)
    ensures var a' := BaselineStep(a, r);
      a'.m.provenanceLinks - 2 * a'.m.toolCalls - a'.m.suspensions - 2 * a'.m.effectiveRepairs
      == a.m.provenanceLinks - 2 * a.m.toolCalls - a.m.suspensions - 2 * a.m.effectiveRepairs
    ensures var m, m' := t.arm.m, AdmissionStep(t, r).arm.m;
      m'.provenanceLinks - 4 * m'.toolCalls - 2 * m'.effectiveRepairs
      == m.provenanceLinks - 4 * m.toolCalls - 2 * m.effectiveRepairs + (if Accepts(r) then 1 else 0)
  {
    hide Decide, Holds, Retained, Settled;
  }

  lemma {:induction false} ArmsBalance(rows: seq<Row>)
    ensures Balanced(Baseline(rows)) && Balanced(AdmissionArm(rows).arm)
    ensures var m := Baseline(rows).m; m.provenanceLinks == 2 * m.toolCalls + m.suspensions + 2 * m.effectiveRepairs
    ensures var m := AdmissionArm(rows).arm.m;
        m.provenanceLinks == 4 * m.toolCalls + AcceptedRows(rows) + 2 * m.effectiveRepairs
  {
    hide BaselineStep, AdmissionStep, Balanced, Accepts;
    NewArmsBalance();
    if rows != [] {
      ArmsBalance(rows[..|rows| - 1]);
      StepLinks(Baseline(rows[..|rows| - 1]), AdmissionArm(rows[..|rows| - 1]), rows[|rows| - 1]);
      BaselineStepBalances(Baseline(rows[..|rows| - 1]), rows[|rows| - 1]);
      AdmissionStepBalances(AdmissionArm(rows[..|rows| - 1]), rows[|rows| - 1]);
    }
  }

  // ----- one arm against the other -----

  /** Where the other arm's trigger would suspend, this arm's would too. */
  predicate Covers(baseline: bool, r: Row) {
    Triggers(!baseline, r) ==> Triggers(baseline, r)
  }

  /** The other arm is suspended only where this one is, and every comparison of the two metrics that follows. */
  ghost predicate Dominated(arm: Arm, other: Arm) {
    && (other.suspendedBy.Some? ==> arm.suspendedBy.Some?)
    && other.m.toolCalls == arm.m.toolCalls
    && other.m.denied <= arm.m.denied
    && other.m.falseDenyCalls + other.m.enforcementDenied <= arm.m.falseDenyCalls + arm.m.enforcementDenied
    && other.m.effectiveRepairs <= arm.m.effectiveRepairs
    && other.m.violationAllowed >= arm.m.violationAllowed
  }

  /** What one row adds to the counts that the comparison is about, in either arm. */
  lemma StepCounts(baseline: bool, rows: seq<Row>)
    requires rows != []
    ensures var m, a, r := ArmOf(baseline, rows[..|rows| - 1]).m, ArmOf(baseline, rows), rows[|rows| - 1];
      && a.m.toolCalls == m.toolCalls + (if r.kind.Judged? then 1 else 0)
      && a.m.denied == m.denied + (if r.kind.Judged? && a.suspendedBy.Some? then 1 else 0)
      && a.m.effectiveRepairs == m.effectiveRepairs
           + (if r.kind.Repair? && ArmOf(baseline, rows[..|rows| - 1]).suspendedBy.Some? then 1 else 0)
  {
    hide Decide, Holds, Retained, Settled;
  }

  /** A covered row, or one that finds this arm already suspended, keeps the comparison; any other row breaks it. */
  lemma StepKeepsDominated(baseline: bool, rows: seq<Row>)
    requires rows != []
    requires var front := rows[..|rows| - 1]; Dominated(ArmOf(baseline, front), ArmOf(!baseline, front))
    ensures Dominated(ArmOf(baseline, rows), ArmOf(!baseline, rows))
       <==> Covers(baseline, rows[|rows| - 1]) || ArmOf(baseline, rows[..|rows| - 1]).suspendedBy.Some?
  {
    hide ArmOf, Triggers;
    StepCause(baseline, rows);
    StepCause(!baseline, rows);
    StepCounts(baseline, rows);
    StepCounts(!baseline, rows);
    StepBlast(baseline, rows);
    StepBlast(!baseline, rows);
    StepMisses(baseline, rows);
    StepMisses(!baseline, rows);
    TriggersAreJudged(!baseline, rows[|rows| - 1]);
  }

  /** The comparison holds after every prefix of the trace. */
  ghost predicate DominatedThroughout(baseline: bool, rows: seq<Row>) {
    forall n | 0 <= n <= |rows| :: Dominated(ArmOf(baseline, rows[..n]), ArmOf(!baseline, rows[..n]))
  }

  /** Row `i` is covered, or arrives while an unrepaired trigger already suspends this arm. */
  ghost predicate Excused(baseline: bool, rows: seq<Row>, i: nat)
    requires i < |rows|
  {
    Covers(baseline, rows[i]) || exists j: nat | j < i :: Causes(baseline, rows[..i], j)
  }

  lemma ThroughoutSnoc(baseline: bool, front: seq<Row>, r: Row)
    ensures var rows := front + [r];
      DominatedThroughout(baseline, rows)
      <==> DominatedThroughout(baseline, front) && Dominated(ArmOf(baseline, rows), ArmOf(!baseline, rows))
  {
    hide Dominated, ArmOf;
    var rows := front + [r];
    assert rows[..|rows|] == rows;
    assert forall n | 0 <= n <= |front| :: rows[..n] == front[..n];
  }

  lemma ExcusedSnoc(baseline: bool, front: seq<Row>, r: Row)
    ensures var rows := front + [r];
      (forall i: nat | i < |rows| :: Excused(baseline, rows, i))
      <==> (forall i: nat | i < |front| :: Excused(baseline, front, i))
           && (Covers(baseline, r) || ArmOf(baseline, front).suspendedBy.Some?)
  {
    hide ArmOf, Causes, Covers;
    var rows := front + [r];
    assert rows[..|front|] == front;
    CauseIsFirstTrigger(baseline, front);
    assert Excused(baseline, rows, |front|) <==> Covers(baseline, r) || ArmOf(baseline, front).suspendedBy.Some?;
    forall i: nat | i < |front| ensures Excused(baseline, rows, i) <==> Excused(baseline, front, i) {
      assert rows[..i] == front[..i] && rows[i] == front[i];
    }
    hide Excused;
    assert forall i: nat | i < |front| :: Excused(baseline, front, i) <==> Excused(baseline, rows, i);
  }

  /**
   Either arm against the other, exactly: the comparison holds at every step of
   a trace if and only if every row is covered or finds this arm suspended.
   With `baseline` it is "admission suspends no more than the baseline"; without
   it, "admission suspends no less".
   */
  lemma {:induction false} CoverageIsExact(baseline: bool, rows: seq<Row>)
    ensures DominatedThroughout(baseline, rows) <==> forall i: nat | i < |rows| :: Excused(baseline, rows, i)
    ensures DominatedThroughout(baseline, rows)
        ==> ArmOf(!baseline, rows).m.suspensions <= ArmOf(baseline, rows).m.suspensions
  {
    hide Dominated, ArmOf, Balanced, Covers, DominatedThroughout, Excused;
    if rows == [] {
      NothingIsDominated(baseline);
    } else {
      var n := |rows| - 1;
      var front, r := rows[..n], rows[n];
      CoverageIsExact(baseline, front);
      assert front + [r] == rows;
      ThroughoutSnoc(baseline, front, r);
      ExcusedSnoc(baseline, front, r);
      if DominatedThroughout(baseline, front) {
        ThroughoutEnds(baseline, front);
        StepKeepsDominated(baseline, rows);
      }
    }
    if DominatedThroughout(baseline, rows) {
      ThroughoutEnds(baseline, rows);
      ArmOfBalances(baseline, rows);
      ArmOfBalances(!baseline, rows);
      FewerSuspensions(ArmOf(baseline, rows), ArmOf(!baseline, rows));
    }
  }

  lemma NothingIsDominated(baseline: bool)
    ensures DominatedThroughout(baseline, [])
  {
    var rows: seq<Row> := [];
    assert forall n | 0 <= n <= |rows| :: rows[..n] == [];
  }

  lemma ThroughoutEnds(baseline: bool, rows: seq<Row>)
    requires DominatedThroughout(baseline, rows)
    ensures Dominated(ArmOf(baseline, rows), ArmOf(!baseline, rows))
  {
    hide Dominated, ArmOf;
    assert rows[..|rows|] == rows;
  }

  lemma ArmOfBalances(baseline: bool, rows: seq<Row>)
    ensures Balanced(ArmOf(baseline, rows))
  {
    ArmsBalance(rows);
  }

  /** Balanced ledgers turn "suspended less" and "repaired less" into "suspended less often". */
  lemma FewerSuspensions(arm: Arm, other: Arm)
    requires Balanced(arm) && Balanced(other) && Dominated(arm, other)
    ensures other.m.suspensions <= arm.m.suspensions
  {
  }

  /**
   The simulation at every step of every trace without two corroborators:
   admission's suspensions, denials, benign denials and repairs stay at or below
   the baseline's, and its allowed violations at or above.
   */
  lemma UncorroboratedTracesAreDominated(rows: seq<Row>, i: nat)
    requires i <= |rows|
    requires forall r | r in rows :: r.corroborators < 2
    ensures Dominated(Baseline(rows[..i]), AdmissionArm(rows[..i]).arm)
    ensures AdmissionArm(rows[..i]).arm.m.suspensions <= Baseline(rows[..i]).m.suspensions
  {
    CoveredTraceIsDominated(true, rows[..i]);
  }

  lemma CoveredTraceIsDominated(baseline: bool, rows: seq<Row>)
    requires forall r | r in rows :: Covers(baseline, r)
    ensures Dominated(ArmOf(baseline, rows), ArmOf(!baseline, rows))
    ensures ArmOf(!baseline, rows).m.suspensions <= ArmOf(baseline, rows).m.suspensions
  {
    hide Dominated, ArmOf, Covers, DominatedThroughout;
    CoverageIsExact(baseline, rows);
    ThroughoutEnds(baseline, rows);
  }

  /**
   The other direction: where every row at or above the baseline's threshold
   comes from a reliable source with two corroborators, admission loses no
   enforcement. At every step it is suspended wherever the baseline is, denies
   no less and lets no more violations through.
   */
  lemma CorroboratedTracesLoseNothing(rows: seq<Row>, i: nat)
    requires i <= |rows|
    requires forall r | r in rows && r.kind.Judged? && r.confidence >= 850_000 ::
               r.reliability >= 700_000 && r.corroborators >= 2
    ensures Dominated(AdmissionArm(rows[..i]).arm, Baseline(rows[..i]))
    ensures Baseline(rows[..i]).m.suspensions <= AdmissionArm(rows[..i]).arm.m.suspensions
  {
    CoveredTraceIsDominated(false, rows[..i]);
  }

  /** A corroborated row below the baseline's threshold: admission alone suspends on it. */
  const CORROBORATED_BELOW: Row := TraceRow(Judged, "", 760_000, 800_000, 2, 0, 0, Violation)

  /** An uncertain row from a single source above it: the baseline alone suspends on it. */
  const UNCERTAIN_ABOVE: Row := TraceRow(Judged, "", 870_000, 800_000, 0, 0, 0, FalsePositive)

  /** Neither arm is stricter than the other on all traces: each comparison fails on one row. */
  lemma NeitherArmDominates()
    ensures !Covers(true, CORROBORATED_BELOW) && !DominatedThroughout(true, [CORROBORATED_BELOW])
    ensures !Covers(false, UNCERTAIN_ABOVE) && !DominatedThroughout(false, [UNCERTAIN_ABOVE])
  {
    CoverageIsExact(true, [CORROBORATED_BELOW]);
    CoverageIsExact(false, [UNCERTAIN_ABOVE]);
    assert !Excused(true, [CORROBORATED_BELOW], 0);
    assert !Excused(false, [UNCERTAIN_ABOVE], 0);
  }
}
