/**
 What callers may rely on across crashes and restarts: an acknowledged
 suspension keeps denying and an acknowledged decision keeps its explanation, in
 every later healthy process.
 */
module Survival {
  import opened Wrappers
  import opened GovernanceKernel
  import opened Store
  import opened Runtime
  import opened Reachable
  import opened Verdicts
  import opened JsonFile
  import opened Durability
  import opened RuntimeBinding
  import opened Enforcement

  /** Nothing that happens later takes a committed operation back. */
  lemma {:induction false} CommittedGrows(disk: Disk, actions: seq<Action>, later: seq<Action>)
    ensures Committed(disk, actions) <= Committed(disk, actions + later)
  {
    hide Exec, Committed;
    if later == [] {
      assert actions + later == actions;
    } else {
      var front := later[..|later| - 1];
      CommittedGrows(disk, actions, front);
      assert actions + later == actions + front + [later[|later| - 1]];
      HistorySnoc(disk, actions + front, later[|later| - 1]);
    }
  }

  lemma {:induction false} IntactBefore(disk: Disk, actions: seq<Action>, later: seq<Action>)
    requires Intact(disk, actions + later)
    ensures Intact(disk, actions)
  {
    if later == [] {
      assert actions + later == actions;
    } else {
      hide *;
      var front := later[..|later| - 1];
      assert actions + later == actions + front + [later[|later| - 1]];
      HistorySnoc(disk, actions + front, later[|later| - 1]);
      IntactBefore(disk, actions, front);
    }
  }

  /** An acknowledged call's operation is committed right after everything committed before it, for ever. */
  lemma AcknowledgedStaysCommitted(disk: Disk, before: seq<Action>, a: Action, later: seq<Action>)
      returns (rest: seq<Op>)
    requires Acknowledges(Exec(disk, before), a)
    ensures Committed(disk, before + [a] + later) == Committed(disk, before) + [a.op] + rest
  {
    hide Exec, Committed;
    HistorySnoc(disk, before, a);
    CommittedGrows(disk, before + [a], later);
    rest := Committed(disk, before + [a] + later)[|Committed(disk, before)| + 1..];
  }

  /**
   A suspension that was acknowledged denies its domain in every later healthy
   process, after any crashes, failures, restarts and other traffic, as long as
   no blind process commits and the live one is not blind.
   */
  lemma AcknowledgedSuspensionSurvives(
    disk: Disk, before: seq<Action>, a: Action, later: seq<Action>, p: DecideParams)
    requires SoundDisk(disk) && Intact(disk, before + [a] + later)
    requires Acknowledges(Exec(disk, before), a) && StrongIn(a.op, p.domain)
    ensures var all := before + [a] + later; var sys := Exec(disk, all);
      sys.process.Up? && sys.process.fatalError.None? && !Blind(disk, all) ==>
        var r := Step(sys.process.runtime, DecideOp(p)).1;
        r.Ok? && r.value.decision == "DENY" && r.value.stateVersion == StateVersion(1)
  {
    hide *;
    var all := before + [a] + later;
    var sys, done := Exec(disk, all), Committed(disk, all);
    var rest := AcknowledgedStaysCommitted(disk, before, a, later);
    LifeOfAProcess(Exec(disk, before), a);
    CommittedSuspends(Committed(disk, before), a.op, rest, p.domain);
    CrashRecovery(disk, all);
    BeganAgrees(disk);
    LineResult(disk, done);
    SuspensionFrom(Began(disk), done, p.domain);
    SettledVerdict(RunFrom(Began(disk), done), p);
    if sys.process.Up? && sys.process.fatalError.None? && !Blind(disk, all) {
      StepRespectsEquivalence(sys.process.runtime, RunFrom(Began(disk), done), DecideOp(p));
    }
  }

  lemma CommittedSuspends(done: seq<Op>, op: Op, rest: seq<Op>, d: DomainKey)
    requires StrongIn(op, d)
    ensures SuspendedBy(done + [op] + rest, d)
  {
    assert StrongIn((done + [op] + rest)[|done|], d);
  }

  lemma BeganAgrees(disk: Disk)
    requires SoundDisk(disk)
    ensures Agrees(Began(disk)) && Began(disk).store == Decoded(disk.target).value
  {
    hide Agrees, Recovers, Recovered;
    SoundAgrees(Decoded(disk.target).value);
    RecoveredKeepsStore(Decoded(disk.target).value);
  }

  lemma LineResult(disk: Disk, ops: seq<Op>)
    requires SoundDisk(disk)
    ensures Line(Began(disk), ops).Result() == RunFrom(Began(disk), ops)
  {
  }

  /** The record an acknowledged decide call wrote, on top of everything committed before it. */
  function RecordOf(disk: Disk, before: seq<Action>, p: DecideParams): StoredDecision
    requires SoundDisk(disk)
  {
    DecisionRecord(RunFrom(Began(disk), Committed(disk, before)), p)
  }

  /** The decision, if any, to which the starting store had already given an id. */
  function Carried(disk: Disk, id: string): Option<StoredDecision>
    requires SoundDisk(disk)
  {
    FindDecision(Began(disk).store.decisions, id)
  }

  lemma AcknowledgedRecord(disk: Disk, before: seq<Action>, p: DecideParams, end: CallEnd)
    requires SoundDisk(disk) && Intact(disk, before) && !Blind(disk, before)
    requires Acknowledges(Exec(disk, before), Call(DecideOp(p), end))
    ensures var answer := Act(Exec(disk, before), Call(DecideOp(p), end)).1.result.value;
        var d := RecordOf(disk, before, p);
      && answer.Decided?
      && d.decisionId == answer.decisionId && d.verdict == answer.decision && d.stateVersion == answer.stateVersion
      && d.domain == p.domain && d.action == p.action
  {
    hide Exec, Committed, RunFrom, Recovers, Recovered, Intact, Blind, LineOf, Equivalent, Agrees, SoundDisk, Began,
      DecisionFor, GoverningRelations, Booted;
    CrashRecovery(disk, before);
    StepRespectsEquivalence(
      Exec(disk, before).process.runtime, RunFrom(Began(disk), Committed(disk, before)), DecideOp(p));
    RecordFields(RunFrom(Began(disk), Committed(disk, before)), p);
  }

  lemma RecordFields(rt: RuntimeState, p: DecideParams)
    ensures DecisionRecord(rt, p).domain == p.domain && DecisionRecord(rt, p).action == p.action
  {
    hide DecisionId, StateVersion, CausalChain, DecisionTrail, Decision.Name;
  }

  lemma AcknowledgedIsFound(disk: Disk, before: seq<Action>, p: DecideParams, end: CallEnd, later: seq<Action>)
    requires var a := Call(DecideOp(p), end); SoundDisk(disk) && Intact(disk, before + [a] + later)
    requires Acknowledges(Exec(disk, before), Call(DecideOp(p), end))
    ensures var a := Call(DecideOp(p), end); var id := RecordOf(disk, before, p).decisionId;
      var ops := Committed(disk, before + [a] + later);
      && |Committed(disk, before)| < |ops|
      && ops[..|Committed(disk, before)|] == Committed(disk, before)
      && ops[|Committed(disk, before)|] == DecideOp(p)
      && FindDecision(RunFrom(Began(disk), ops).store.decisions, id)
         == if Carried(disk, id).Some? then Carried(disk, id) else Some(RecordOf(disk, before, p))
  {
    hide Exec, Committed, RunFrom, Intact, Acknowledges, SoundDisk, Began, DecisionRecord, FindDecision;
    var a := Call(DecideOp(p), end);
    var done := Committed(disk, before);
    var rest := AcknowledgedStaysCommitted(disk, before, a, later);
    var ops := Committed(disk, before + [a] + later);
    assert ops[..|done|] == done && ops[|done|] == DecideOp(p);
    IssuedIsFound(Began(disk), ops, |done|);
  }

  /**
   A decision that was acknowledged is explained by the same record, under the
   id that was answered, in every later healthy process that is not blind, as
   long as no blind process commits. Only an id that the starting store had
   already taken is explained by the decision it named then.
   */
  lemma AcknowledgedDecisionSurvives(
    disk: Disk, before: seq<Action>, p: DecideParams, end: CallEnd, later: seq<Action>)
    requires var a := Call(DecideOp(p), end);
      SoundDisk(disk) && Intact(disk, before + [a] + later) && !Blind(disk, before)
    requires Acknowledges(Exec(disk, before), Call(DecideOp(p), end))
    ensures var a := Call(DecideOp(p), end); var all := before + [a] + later; var sys := Exec(disk, all);
      var answer := Act(Exec(disk, before), a).1.result.value;
      && answer.Decided?
      && (sys.process.Up? && sys.process.fatalError.None? && !Blind(disk, all) ==>
            var e := ExplainTool(sys.process.runtime.store, answer.decisionId);
            var carried := Carried(disk, answer.decisionId);
            && e.Ok? && e.value.Explained?
            && e.value.record == (if carried.Some? then carried.value else RecordOf(disk, before, p))
            && (carried.None? ==>
                  && e.value.record.decisionId == answer.decisionId
                  && e.value.record.verdict == answer.decision
                  && e.value.record.stateVersion == answer.stateVersion))
  {
    var a := Call(DecideOp(p), end);
    var all := before + [a] + later;
    IntactBefore(disk, before + [a], later);
    IntactBefore(disk, before, [a]);
    AcknowledgedRecord(disk, before, p, end);
    AcknowledgedIsFound(disk, before, p, end, later);
    CrashRecovery(disk, all);
    hide Exec, Committed, RunFrom, Recovers, Recovered, Intact, Blind, LineOf, Agrees, SoundDisk, Began, DecisionRecord,
      FindDecision, Act, Acknowledges, Booted, Carried, RecordOf;
  }

  // ----- how much can be committed without an answer -----

  function Boots(actions: seq<Action>): nat {
    if actions == [] then 0 else Boots(actions[..|actions| - 1]) + if actions[|actions| - 1].Boot? then 1 else 0
  }

  /** Only a boot brings a process up, and a commit that is never answered brings one down. */
  lemma LifeOfAProcess(sys: System, a: Action)
    ensures Act(sys, a).0.process.Up? ==> sys.process.Up? || a.Boot?
    ensures CommitsInFlight(sys, a) ==> sys.process.Up? && Act(sys, a).0.process.Down? && !Acknowledges(sys, a)
    ensures Acknowledges(sys, a) || CommitsInFlight(sys, a) ==> a.Call?
  {
    hide Step, Recovers, Recovered;
  }

  /** Over a whole history, at most one unanswered operation is committed per boot. */
  lemma {:induction false} OneUnansweredPerBoot(disk: Disk, actions: seq<Action>)
    ensures |Acknowledged(disk, actions)| <= |Committed(disk, actions)|
    ensures |Committed(disk, actions)| + (if Exec(disk, actions).process.Up? then 1 else 0)
         <= |Acknowledged(disk, actions)| + Boots(actions)
  {
    if actions != [] {
      var front, a := actions[..|actions| - 1], actions[|actions| - 1];
      OneUnansweredPerBoot(disk, front);
      hide Exec, Committed, Acknowledged, Act, CommitsInFlight, Acknowledges;
      HistorySnoc(disk, front, a);
      LifeOfAProcess(Exec(disk, front), a);
      assert front + [a] == actions;
    }
  }

  // ----- lifetime by lifetime -----

  /** The process lifetimes begun so far: boots that brought a process up. */
  function Lives(disk: Disk, actions: seq<Action>): nat {
    if actions == [] then 0
    else
      var front := actions[..|actions| - 1];
      Lives(disk, front) + if Exec(disk, front).process.Down? && Exec(disk, actions).process.Up? then 1 else 0
  }

  /** A committed operation, whether its caller was answered, and the lifetime that committed it. */
  datatype Commit = Commit(op: Op, answered: bool, life: nat)

  function CommitLog(disk: Disk, actions: seq<Action>): seq<Commit> {
    if actions == [] then []
    else
      var front, a := actions[..|actions| - 1], actions[|actions| - 1];
      var sys := Exec(disk, front);
      CommitLog(disk, front)
      + if Acknowledges(sys, a) then [Commit(a.op, true, Lives(disk, front))]
        else if CommitsInFlight(sys, a) then [Commit(a.op, false, Lives(disk, front))]
        else []
  }

  function OpsOf(log: seq<Commit>): seq<Op> {
    if log == [] then [] else OpsOf(log[..|log| - 1]) + [log[|log| - 1].op]
  }

  function AnsweredOf(log: seq<Commit>): seq<Op> {
    if log == [] then [] else AnsweredOf(log[..|log| - 1]) + if log[|log| - 1].answered then [log[|log| - 1].op] else []
  }

  /** Lifetime after lifetime: within each, answered operations first, then at most one that never was. */
  ghost predicate LifeByLife(log: seq<Commit>, lives: nat, up: bool) {
    && (forall i | 0 <= i < |log| :: log[i].life <= lives)
    && (forall i, j | 0 <= i < j < |log| :: log[i].life <= log[j].life)
    && (forall i, j | 0 <= i < j < |log| && log[i].life == log[j].life :: log[i].answered)
    && (up ==> forall i | 0 <= i < |log| && log[i].life == lives :: log[i].answered)
  }

  lemma LogSnoc(log: seq<Commit>, c: Commit)
    ensures OpsOf(log + [c]) == OpsOf(log) + [c.op]
    ensures AnsweredOf(log + [c]) == AnsweredOf(log) + (if c.answered then [c.op] else [])
  {
    assert (log + [c])[..|log|] == log;
  }

  lemma CommitLogSnoc(disk: Disk, front: seq<Action>, a: Action)
    ensures var sys := Exec(disk, front); var sys' := Exec(disk, front + [a]);
      && Lives(disk, front + [a]) == Lives(disk, front) + (if sys.process.Down? && sys'.process.Up? then 1 else 0)
      && (Acknowledges(sys, a) ==>
            CommitLog(disk, front + [a]) == CommitLog(disk, front) + [Commit(a.op, true, Lives(disk, front))])
      && (!Acknowledges(sys, a) && CommitsInFlight(sys, a) ==>
            CommitLog(disk, front + [a]) == CommitLog(disk, front) + [Commit(a.op, false, Lives(disk, front))])
      && (!Acknowledges(sys, a) && !CommitsInFlight(sys, a) ==> CommitLog(disk, front + [a]) == CommitLog(disk, front))
  {
    hide Exec, Act;
    assert (front + [a])[..|front|] == front;
  }

  /** A commit of the live process goes last in its lifetime, and an unanswered one ends it. */
  lemma LifeGrows(log: seq<Commit>, lives: nat, op: Op, answered: bool, up: bool)
    requires LifeByLife(log, lives, true)
    requires up ==> answered
    ensures LifeByLife(log + [Commit(op, answered, lives)], lives, up)
  {
  }

  /**
   The log holds the committed operations, its answered part the acknowledged ones,
   and it goes lifetime by lifetime.
   */
  ghost predicate LogFits(disk: Disk, actions: seq<Action>) {
    && OpsOf(CommitLog(disk, actions)) == Committed(disk, actions)
    && AnsweredOf(CommitLog(disk, actions)) == Acknowledged(disk, actions)
    && LifeByLife(CommitLog(disk, actions), Lives(disk, actions), Exec(disk, actions).process.Up?)
  }

  /**
   Over any number of lifetimes: the committed operations are, lifetime by
   lifetime, those acknowledged in it in order, then at most the one it died in.
   */
  lemma {:induction false} CommitsLifeByLife(disk: Disk, actions: seq<Action>)
    ensures LogFits(disk, actions)
  {
    if actions == [] {
      assert Exec(disk, []).process.Down?;
    } else {
      hide *;
      var front := actions[..|actions| - 1];
      CommitsLifeByLife(disk, front);
      assert front + [actions[|actions| - 1]] == actions;
      StepFitsLog(disk, front, actions[|actions| - 1]);
    }
  }

  lemma StepFitsLog(disk: Disk, front: seq<Action>, a: Action)
    requires LogFits(disk, front)
    ensures LogFits(disk, front + [a])
  {
    hide Exec, Act, Committed, Acknowledged, Acknowledges, CommitsInFlight, CommitLog, Lives, LifeByLife, OpsOf,
      AnsweredOf;
    var sys, log, lives := Exec(disk, front), CommitLog(disk, front), Lives(disk, front);
    var up := Exec(disk, front + [a]).process.Up?;
    HistorySnoc(disk, front, a);
    CommitLogSnoc(disk, front, a);
    LifeOfAProcess(sys, a);
    if Acknowledges(sys, a) || CommitsInFlight(sys, a) {
      if sys.process.Down? { DownCommitsNothing(disk, front, a); }
      LogSnoc(log, Commit(a.op, Acknowledges(sys, a), lives));
      LifeGrows(log, lives, a.op, Acknowledges(sys, a), up);
    } else {
      assert Committed(disk, front) + [] == Committed(disk, front)
        && Acknowledged(disk, front) + [] == Acknowledged(disk, front);
      LifeRests(log, lives, Lives(disk, front + [a]), sys.process.Up?, up);
    }
  }

  /** Without a commit, the process goes on, or ends, or a new lifetime begins. */
  lemma LifeRests(log: seq<Commit>, lives: nat, lives': nat, up: bool, up': bool)
    requires LifeByLife(log, lives, up)
    requires lives' == lives + (if !up && up' then 1 else 0)
    ensures LifeByLife(log, lives', up')
  {
  }

  // ----- the gate on the disk -----

  /**
   The gate opens the file and judges the snapshot it finds there. After any
   history it allows exactly what the line on disk supports: an id its start had
   taken when that decision still fits, any other when some operation of the line
   was a decide call that gave this very answer and its domain is not suspended.
   */
  lemma DiskGateIsExact(disk: Disk, actions: seq<Action>, req: Request)
    requires SoundDisk(disk)
    ensures var snapshot := Decoded(Exec(disk, actions).disk.target);
      var line := LineOf(disk, actions);
      var carried := FindDecision(line.start.store.decisions, req.decisionId);
      && snapshot.Some?
      && ValidateExecution(None, snapshot.value, req).Ok?
      && (ValidateExecution(None, snapshot.value, req).value.allowed <==>
            if carried.Some? then StillGood(line.Result(), carried.value, req)
            else exists i: nat | i < |line.ops| ::
                   && AnsweredAllowFrom(line.start, line.ops, i, req)
                   && !SuspendedIn(line.start, line.ops[i].decide.domain)
                   && !SuspendedBy(line.ops, line.ops[i].decide.domain))
      && (Intact(disk, actions) ==> line == Line(Began(disk), Committed(disk, actions)))
  {
    var line := LineOf(disk, actions);
    CrashRecovery(disk, actions);
    LineStartAgrees(disk, actions);
    hide Exec, Committed, RunFrom, Recovers, Recovered, ValidateExecution, SettledIn, SuspendedBy, SuspendedIn, Intact,
      LineOf, Agrees, SoundDisk, Began, StillGood, FindDecision, Booted, Blind, Equivalent;
    ExecutionBindingFrom(line.start, line.ops, req);
    forall i: nat | i < |line.ops| && AnsweredAllowFrom(line.start, line.ops, i, req)
      ensures SuspendedIn(line.Result(), line.ops[i].decide.domain)
              <==> SuspendedIn(line.start, line.ops[i].decide.domain)
                   || SuspendedBy(line.ops, line.ops[i].decide.domain)
    {
      SuspensionFrom(line.start, line.ops, line.ops[i].decide.domain);
    }
  }

  lemma LineStartAgrees(disk: Disk, actions: seq<Action>)
    requires SoundDisk(disk)
    ensures Agrees(LineOf(disk, actions).start)
  {
    hide Agrees, Exec, LineOf, SoundDisk, Equivalent, Blind;
    ExecIsDurable(disk, actions);
  }

  /**
   An acknowledged ALLOW passes the gate on the disk exactly until an observation
   that suspends its domain is committed, whatever crashes come between, as long
   as no blind process commits. An id that the starting store had already taken
   is judged by the decision it named then.
   */
  lemma AcknowledgedAllowIsExecutable(
    disk: Disk, before: seq<Action>, p: DecideParams, end: CallEnd, later: seq<Action>)
    requires var a := Call(DecideOp(p), end);
      SoundDisk(disk) && Intact(disk, before + [a] + later) && !Blind(disk, before)
    requires var a := Call(DecideOp(p), end);
      Acknowledges(Exec(disk, before), a) && Act(Exec(disk, before), a).1.result.value.decision == ALLOW
    ensures var a := Call(DecideOp(p), end); var answer := Act(Exec(disk, before), a).1.result.value;
      var snapshot := Decoded(Exec(disk, before + [a] + later).disk.target);
      && answer.Decided? && snapshot.Some?
      && var req := Request(answer.decisionId, p.action, answer.stateVersion);
      var gate := ValidateExecution(None, snapshot.value, req);
      var carried := Carried(disk, answer.decisionId);
      var ops := Committed(disk, before + [a] + later);
      && gate.Ok?
      && (gate.value.allowed <==>
            if carried.Some? then StillGood(RunFrom(Began(disk), ops), carried.value, req)
            else !SuspendedBy(ops, p.domain))
  {
    var a := Call(DecideOp(p), end);
    var all := before + [a] + later;
    var done, ops := Committed(disk, before), Committed(disk, all);
    var answer := Act(Exec(disk, before), a).1.result.value;
    var start := Began(disk);
    IntactBefore(disk, before + [a], later);
    IntactBefore(disk, before, [a]);
    AcknowledgedRecord(disk, before, p, end);
    AcknowledgedIsFound(disk, before, p, end, later);
    CrashRecovery(disk, all);
    BeganAgrees(disk);
    hide Exec, Committed, RunFrom, Intact, Blind, LineOf, Agrees, SoundDisk, Began, DecisionRecord, FindDecision, Act,
      Acknowledges, Booted, ValidateExecution, StateVersion, SuspendedIn, SuspendedBy, Settled;
    SuspensionFrom(start, done, p.domain);
    SuspensionFrom(start, ops, p.domain);
    var carried := Carried(disk, answer.decisionId);
    var found := if carried.Some? then carried.value else RecordOf(disk, before, p);
    SuspensionFrom(start, ops, found.domain);
    GateOnFound(RunFrom(start, ops), found, Request(answer.decisionId, p.action, answer.stateVersion));
    AllowIsActive(RunFrom(start, done), p);
    StateVersionInjective(0, 1);
    assert !SuspendedIn(start, p.domain);
  }

  lemma AllowIsActive(rt: RuntimeState, p: DecideParams)
    requires SettledIn(rt, p.domain) && DecisionRecord(rt, p).verdict == ALLOW
    ensures !SuspendedIn(rt, p.domain) && DecisionRecord(rt, p).stateVersion == StateVersion(0)
  {
    hide StateVersion, DecisionId, CausalChain, DecisionTrail, Decision.Name;
    VerdictNames();
  }
}
