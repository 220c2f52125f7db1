/**
 The served store as a machine over an abstract disk: boots, calls that return
 or crash at any disk step, and kills. Over every run from a sound store, what a
 restart rebuilds is a whole prefix of operations that holds every acknowledged
 one, unless a start missed the file and then wrote over it.
 */
module Durability {
  import opened Wrappers
  import opened Store
  import opened Runtime
  import opened Reachable
  import opened JsonFile

  datatype Process = Down | Up(runtime: RuntimeState, fatalError: Option<PersistError>)

  datatype System = System(disk: Disk, process: Process)

  datatype CallEnd = Returns(persist: PersistEnd) | Crashes(point: CrashPoint)

  datatype Action = Boot(look: Look) | Call(op: Op, end: CallEnd) | Kill

  datatype Reply =
    | NoReply
    | StoreUnavailable(error: PersistError)
    | PersistenceFailed(error: PersistError)
    | Answer(result: Result<Response, RuntimeError>)

  /** Opening the store and recovering; any error leaves the process down. */
  function Booted(disk: Disk, look: Look): Process {
    var found := Opened(disk.target, look);
    if found.Some? && Recovers(found.value) then Up(Recovered(found.value), None) else Down
  }

  /** A call writes exactly when its operation records something. */
  predicate Writes(op: Op, r: Result<Response, RuntimeError>) {
    Mutating(op) && r.Ok?
  }

  /** A served call: health before, the operation and its one persist, health after. */
  function Served(disk: Disk, rt: RuntimeState, op: Op, end: CallEnd): (System, Reply) {
    var (rt', r) := Step(rt, op);
    match end
    case Returns(persist) =>
      if !Writes(op, r) then (System(disk, Up(rt', None)), Answer(r))
      else
        var error := ErrorOf(persist);
        (System(AfterPersist(disk, rt'.store, persist), Up(rt', error)),
         if error.None? then Answer(r) else PersistenceFailed(error.value))
    case Crashes(point) =>
      (System(if Writes(op, r) then AfterCrash(disk, rt'.store, point) else disk, Down), NoReply)
  }

  function Act(sys: System, a: Action): (System, Reply) {
    match a
    case Boot(look) => (if sys.process.Down? then sys.(process := Booted(sys.disk, look)) else sys, NoReply)
    case Kill => (sys.(process := Down), NoReply)
    case Call(op, end) =>
      if sys.process.Down? then (sys, NoReply)
      else if sys.process.fatalError.Some? then (sys, StoreUnavailable(sys.process.fatalError.value))
      else Served(sys.disk, sys.process.runtime, op, end)
  }

  function ExecFrom(sys: System, actions: seq<Action>): System {
    if actions == [] then sys else Act(ExecFrom(sys, actions[..|actions| - 1]), actions[|actions| - 1]).0
  }

  function Exec(disk: Disk, actions: seq<Action>): System {
    ExecFrom(System(disk, Down), actions)
  }

  /** The action was answered without an error, by an operation that writes. */
  predicate Acknowledges(sys: System, a: Action) {
    a.Call? && Act(sys, a).1.Answer? && Writes(a.op, Act(sys, a).1.result)
  }

  /** The process died in this call after its rename took effect: committed, but never answered. */
  predicate CommitsInFlight(sys: System, a: Action) {
    && a.Call? && a.end == Crashes(AfterRename)
    && sys.process.Up? && sys.process.fatalError.None?
    && Writes(a.op, Step(sys.process.runtime, a.op).1)
  }

  /** The call's snapshot reached the target. */
  predicate Commits(sys: System, a: Action) {
    Acknowledges(sys, a) || CommitsInFlight(sys, a)
  }

  /** The operations whose snapshot reached the target, in order. */
  function Committed(disk: Disk, actions: seq<Action>): seq<Op> {
    if actions == [] then []
    else
      var front, a := actions[..|actions| - 1], actions[|actions| - 1];
      var sys := Exec(disk, front);
      Committed(disk, front) + if Commits(sys, a) then [a.op] else []
  }

  /** The operations the callers were told had succeeded, in order. */
  function Acknowledged(disk: Disk, actions: seq<Action>): seq<Op> {
    if actions == [] then []
    else
      var front, a := actions[..|actions| - 1], actions[|actions| - 1];
      Acknowledged(disk, front) + if Acknowledges(Exec(disk, front), a) then [a.op] else []
  }

  // ----- where runs start, and what they continue -----

  /** A disk whose store starts and replays in every domain; an absent or empty file is one. */
  ghost predicate SoundDisk(disk: Disk) {
    Decoded(disk.target).Some? && Sound(Decoded(disk.target).value)
  }

  predicate Blank(disk: Disk) {
    disk.target.Absent? || disk.target.Empty?
  }

  /** The runtime that the first start recovers. */
  function Began(disk: Disk): RuntimeState
    requires SoundDisk(disk)
  {
    Recovered(Decoded(disk.target).value)
  }

  /** The live process started without seeing the store on disk, and has not written over it yet. */
  predicate Blind(disk: Disk, actions: seq<Action>) {
    if actions == [] then false
    else
      var front, a := actions[..|actions| - 1], actions[|actions| - 1];
      NowBlind(Exec(disk, front), a, Blind(disk, front))
  }

  predicate NowBlind(sys: System, a: Action, before: bool) {
    if a.Boot? && sys.process.Down? then a.look.Missed? && Decoded(sys.disk.target) != Some(EMPTY_STORE)
    else before && !Commits(sys, a)
  }

  /** A start and the operations committed on top of it. */
  datatype Line = Line(start: RuntimeState, ops: seq<Op>)
  {
    function Result(): RuntimeState {
      RunFrom(start, ops)
    }

    /** A commit of a blind process begins a new line; any other continues this one. */
    function Next(blind: bool, op: Op): Line {
      if blind then Line(NEW_RUNTIME, [op]) else Line(start, ops + [op])
    }
  }

  /** The line whose result is on disk. */
  function LineOf(disk: Disk, actions: seq<Action>): Line
    requires SoundDisk(disk)
  {
    if actions == [] then Line(Began(disk), [])
    else
      var front, a := actions[..|actions| - 1], actions[|actions| - 1];
      if Commits(Exec(disk, front), a) then LineOf(disk, front).Next(Blind(disk, front), a.op) else LineOf(disk, front)
  }

  /** No blind process ever committed. */
  predicate Intact(disk: Disk, actions: seq<Action>) {
    actions == []
    || (var front, a := actions[..|actions| - 1], actions[|actions| - 1];
        Intact(disk, front) && !(Blind(disk, front) && Commits(Exec(disk, front), a)))
  }

  lemma HistorySnoc(disk: Disk, actions: seq<Action>, a: Action)
    ensures var sys := Exec(disk, actions);
      && Exec(disk, actions + [a]) == Act(sys, a).0
      && Committed(disk, actions + [a]) == Committed(disk, actions) + (if Commits(sys, a) then [a.op] else [])
      && Blind(disk, actions + [a]) == NowBlind(sys, a, Blind(disk, actions))
      && Intact(disk, actions + [a]) == (Intact(disk, actions) && !(Blind(disk, actions) && Commits(sys, a)))
      && Acknowledged(disk, actions + [a]) == Acknowledged(disk, actions)
          + (if Acknowledges(sys, a) then [a.op] else [])
      && (SoundDisk(disk) ==>
            LineOf(disk, actions + [a])
            == if Commits(sys, a) then LineOf(disk, actions).Next(Blind(disk, actions), a.op)
               else LineOf(disk, actions))
  {
    hide Act, Commits, Acknowledges, NowBlind, SoundDisk;
    assert (actions + [a])[..|actions|] == actions;
  }

  // ----- crash recovery -----

  /**
   The disk holds the line's store, and the live process behaves as the line, or as
   a new runtime when it is blind.
   */
  ghost predicate Durable(sys: System, line: Line, blind: bool) {
    && Agrees(line.start)
    && Decoded(sys.disk.target) == Some(line.Result().store)
    && (blind ==> line.Result().store != EMPTY_STORE)
    && (sys.process.Up? && sys.process.fatalError.None? ==>
          Equivalent(sys.process.runtime, if blind then NEW_RUNTIME else line.Result()))
  }

  /** A call that writes nothing moves no domain and no store. */
  lemma ReadsChangeNothing(rt: RuntimeState, op: Op)
    requires !Writes(op, Step(rt, op).1)
    ensures Step(rt, op).0 == rt
  {
    hide ReplayTool, ExplainTool, DecisionRecord, ObservedEvent, ObserveDomain;
  }

  lemma EquivalentStores(a: RuntimeState, b: RuntimeState)
    requires Equivalent(a, b)
    ensures a.store == b.store
  {
  }

  lemma NextResult(line: Line, blind: bool, op: Op)
    ensures line.Next(blind, op).Result() == Step(if blind then NEW_RUNTIME else line.Result(), op).0
  {
    RunSnoc(line.start, line.ops, op);
    RunSnoc(NEW_RUNTIME, [], op);
    assert [] + [op] == [op];
  }

  lemma ServedIsDurable(disk: Disk, rt: RuntimeState, op: Op, end: CallEnd, line: Line, blind: bool)
    requires Durable(System(disk, Up(rt, None)), line, blind)
    ensures var sys := System(disk, Up(rt, None)); var a := Call(op, end);
      Durable(Act(sys, a).0, if Commits(sys, a) then line.Next(blind, op) else line, blind && !Commits(sys, a))
  {
    hide Step, RunFrom, Equivalent, Agrees;
    var basis := if blind then NEW_RUNTIME else line.Result();
    StepRespectsEquivalence(rt, basis, op);
    NextResult(line, blind, op);
    NewRuntimeAgrees();
    EquivalentStores(Step(rt, op).0, Step(basis, op).0);
    if !Writes(op, Step(rt, op).1) {
      ReadsChangeNothing(rt, op);
    }
  }

  lemma BootIsDurable(sys: System, look: Look, line: Line, blind: bool)
    requires sys.process.Down? && Durable(sys, line, blind)
    ensures Durable(Act(sys, Boot(look)).0, line, NowBlind(sys, Boot(look), blind))
    ensures look.Readable? ==> Act(sys, Boot(look)).0.process.Up?
    ensures look.Missed? ==> Act(sys, Boot(look)).0.process.Up?
  {
    hide RunFrom, Agrees, Recovers, Equivalent, Recovered;
    RunFromAgrees(line.start, line.ops);
    AgreeingRecovers(line.Result());
    NewRuntimeAgrees();
    AgreeingRecovers(NEW_RUNTIME);
    if line.Result().store == EMPTY_STORE { EmptyIsNew(line.Result()); }
  }

  lemma EmptyIsNew(rt: RuntimeState)
    requires Agrees(rt) && rt.store == EMPTY_STORE
    ensures Equivalent(rt, NEW_RUNTIME)
  {
    forall d: DomainKey ensures DomainOf(rt.domains, d) == DomainOf(NEW_RUNTIME.domains, d) {
      assert LiveIsFold(rt, d);
    }
  }

  lemma ActIsDurable(sys: System, a: Action, line: Line, blind: bool)
    requires Durable(sys, line, blind)
    ensures Durable(Act(sys, a).0, if Commits(sys, a) then line.Next(blind, a.op) else line, NowBlind(sys, a, blind))
  {
    hide Served, RunFrom, Recovers, Recovered, Equivalent, Step, Agrees;
    match a
    case Boot(look) => if sys.process.Down? { BootIsDurable(sys, look, line, blind); }
    case Kill =>
    case Call(op, end) =>
      if sys.process.Up? && sys.process.fatalError.None? {
        ServedIsDurable(sys.disk, sys.process.runtime, op, end, line, blind);
      }
  }

  lemma StartIsDurable(disk: Disk)
    requires SoundDisk(disk)
    ensures Durable(System(disk, Down), Line(Began(disk), []), false)
  {
    hide Agrees, Recovers, Recovered;
    SoundAgrees(Decoded(disk.target).value);
    RecoveredKeepsStore(Decoded(disk.target).value);
  }

  lemma {:induction false} ExecIsDurable(disk: Disk, actions: seq<Action>)
    requires SoundDisk(disk)
    ensures Durable(Exec(disk, actions), LineOf(disk, actions), Blind(disk, actions))
  {
    if actions == [] {
      StartIsDurable(disk);
    } else {
      hide *;
      var front, a := actions[..|actions| - 1], actions[|actions| - 1];
      ExecIsDurable(disk, front);
      ActIsDurable(Exec(disk, front), a, LineOf(disk, front), Blind(disk, front));
      assert front + [a] == actions;
      HistorySnoc(disk, front, a);
    }
  }

  lemma {:induction false} IntactLine(disk: Disk, actions: seq<Action>)
    requires SoundDisk(disk) && Intact(disk, actions)
    ensures LineOf(disk, actions) == Line(Began(disk), Committed(disk, actions))
  {
    hide Exec, Commits, NowBlind, SoundDisk;
    if actions != [] {
      IntactLine(disk, actions[..|actions| - 1]);
    }
  }

  /**
   Crash recovery from any store that starts and replays, over any interleaving
   of domains, any crashes, failures, restarts and missed targets. The disk
   holds the result of a line of committed operations and every start that reads
   it comes up as that line. While no blind process has committed, the line is
   all the committed operations, on top of what the first start recovered.
   */
  lemma CrashRecovery(disk: Disk, actions: seq<Action>)
    requires SoundDisk(disk)
    ensures var sys := Exec(disk, actions); var line := LineOf(disk, actions); var rt := line.Result();
      && Agrees(rt)
      && Decoded(sys.disk.target) == Some(rt.store)
      && (sys.process.Up? && sys.process.fatalError.None? ==>
            Equivalent(sys.process.runtime, if Blind(disk, actions) then NEW_RUNTIME else rt))
      && (Intact(disk, actions) ==> line == Line(Began(disk), Committed(disk, actions)))
      && var restarted := Booted(sys.disk, Readable);
         restarted.Up? && restarted.fatalError.None? && Equivalent(restarted.runtime, rt)
  {
    hide *;
    var sys, line := Exec(disk, actions), LineOf(disk, actions);
    ExecIsDurable(disk, actions);
    if Intact(disk, actions) { IntactLine(disk, actions); }
    RestartIsDurable(sys, line, Blind(disk, actions));
  }

  lemma RestartIsDurable(sys: System, line: Line, blind: bool)
    requires Durable(sys, line, blind)
    ensures Agrees(line.Result())
    ensures Decoded(sys.disk.target) == Some(line.Result().store)
    ensures sys.process.Up? && sys.process.fatalError.None? ==>
              Equivalent(sys.process.runtime, if blind then NEW_RUNTIME else line.Result())
    ensures var restarted := Booted(sys.disk, Readable);
      restarted.Up? && restarted.fatalError.None? && Equivalent(restarted.runtime, line.Result())
  {
    hide RunFrom, Agrees, Recovers, Equivalent, Recovered;
    RunFromAgrees(line.start, line.ops);
    AgreeingRecovers(line.Result());
  }

  lemma BlankIsSound(disk: Disk)
    requires Blank(disk)
    ensures SoundDisk(disk) && Began(disk) == NEW_RUNTIME
  {
    hide Agrees, ReplayTool;
    NewRuntimeAgrees();
    AgreeingIsSound(NEW_RUNTIME);
  }

  /** From an absent or empty file with no blind commit: the run of the committed operations, and nothing else. */
  lemma BlankCrashRecovery(disk: Disk, actions: seq<Action>)
    requires Blank(disk) && Intact(disk, actions)
    ensures var sys := Exec(disk, actions); var done := Committed(disk, actions);
      && Decoded(sys.disk.target) == Some(Run(done).store)
      && (sys.process.Up? && sys.process.fatalError.None? && !Blind(disk, actions) ==>
            Equivalent(sys.process.runtime, Run(done)))
      && var restarted := Booted(sys.disk, Readable);
         restarted.Up? && restarted.fatalError.None? && Equivalent(restarted.runtime, Run(done))
  {
    hide Exec, Booted, Committed, Blind, Intact, LineOf, Equivalent, RunFrom, SoundDisk, Began;
    BlankIsSound(disk);
    CrashRecovery(disk, actions);
  }

  // ----- which histories lose nothing -----

  function RecordCount(s: StoreState): nat {
    |s.events| + |s.decisions| + |s.outcomes|
  }

  /** What a start that reads the target finds recorded there. */
  function RecordsOn(disk: Disk): nat {
    if Decoded(disk.target).Some? then RecordCount(Decoded(disk.target).value) else 0
  }

  /** No blind process ever committed over a target that held records. */
  predicate Lossless(disk: Disk, actions: seq<Action>) {
    actions == []
    || (var front, a := actions[..|actions| - 1], actions[|actions| - 1];
        Lossless(disk, front) && !Overwrites(Exec(disk, front), a, Blind(disk, front)))
  }

  predicate Overwrites(sys: System, a: Action, blind: bool) {
    blind && Commits(sys, a) && RecordsOn(sys.disk) > 0
  }

  lemma WritesRecordOne(rt: RuntimeState, op: Op)
    requires Writes(op, Step(rt, op).1)
    ensures RecordCount(Step(rt, op).0.store) == RecordCount(rt.store) + 1
  {
    hide ObserveDomain, ObservedEvent, DecisionRecord, FindDecision, StateVersion, OutcomeId, OutcomeKind.Name;
  }

  /** The disk has all the records expected of it, or fewer. */
  predicate Accounts(sys: System, expected: nat, lossless: bool) {
    RecordsOn(sys.disk) <= expected && (lossless <==> RecordsOn(sys.disk) == expected)
  }

  lemma ActAccounts(sys: System, a: Action, line: Line, blind: bool, expected: nat, lossless: bool)
    requires Durable(sys, line, blind) && Accounts(sys, expected, lossless)
    ensures Accounts(
              Act(sys, a).0, expected + (if Commits(sys, a) then 1 else 0), lossless && !Overwrites(sys, a, blind))
  {
    hide Step, RunFrom, Agrees, Recovers, Recovered, Equivalent, RecordCount;
    if Commits(sys, a) {
      WritesRecordOne(sys.process.runtime, a.op);
      EquivalentStores(sys.process.runtime, if blind then NEW_RUNTIME else line.Result());
      EmptyHasNoRecords();
    }
  }

  lemma EmptyHasNoRecords()
    ensures RecordCount(EMPTY_STORE) == 0
  {
  }

  lemma LosslessSnoc(disk: Disk, front: seq<Action>, a: Action)
    ensures Lossless(disk, front + [a])
       <==> Lossless(disk, front) && !Overwrites(Exec(disk, front), a, Blind(disk, front))
    ensures Intact(disk, front + [a]) ==> Intact(disk, front) && !Overwrites(Exec(disk, front), a, Blind(disk, front))
  {
    hide Exec, Blind, Commits, RecordsOn;
    assert (front + [a])[..|front|] == front;
  }

  lemma NothingHappened(disk: Disk)
    ensures Exec(disk, []) == System(disk, Down) && Committed(disk, []) == [] && Lossless(disk, [])
  {
  }

  /**
   Which histories lose nothing, missed targets included: the disk holds as many
   records as it began with and were committed exactly when no blind process
   committed over a target that held records, and fewer otherwise. So it does when
   no blind process committed at all.
   */
  lemma {:induction false} LosslessIsExact(disk: Disk, actions: seq<Action>)
    requires SoundDisk(disk)
    ensures RecordsOn(Exec(disk, actions).disk) <= RecordsOn(disk) + |Committed(disk, actions)|
    ensures Lossless(disk, actions)
       <==> RecordsOn(Exec(disk, actions).disk) == RecordsOn(disk) + |Committed(disk, actions)|
    ensures Intact(disk, actions) ==> Lossless(disk, actions)
  {
    hide *;
    if actions == [] {
      NothingHappened(disk);
    } else {
      var front, a := actions[..|actions| - 1], actions[|actions| - 1];
      LosslessIsExact(disk, front);
      HistoryAccounts(disk, front, a, RecordsOn(disk) + |Committed(disk, front)|);
      assert front + [a] == actions;
      HistorySnoc(disk, front, a);
      LosslessSnoc(disk, front, a);
    }
  }

  lemma HistoryAccounts(disk: Disk, front: seq<Action>, a: Action, expected: nat)
    requires SoundDisk(disk)
    requires RecordsOn(Exec(disk, front).disk) <= expected
    requires Lossless(disk, front) <==> RecordsOn(Exec(disk, front).disk) == expected
    ensures var sys := Exec(disk, front); var after := RecordsOn(Act(sys, a).0.disk);
      var expected' := expected + if Commits(sys, a) then 1 else 0;
      && after <= expected'
      && (Lossless(disk, front) && !Overwrites(sys, a, Blind(disk, front)) <==> after == expected')
  {
    hide Exec, Act, RecordsOn, Durable, Overwrites, Commits, Lossless, SoundDisk, LineOf, Blind;
    ExecIsDurable(disk, front);
    ActAccounts(Exec(disk, front), a, LineOf(disk, front), Blind(disk, front), expected, Lossless(disk, front));
  }

  // ----- what was committed against what was acknowledged -----

  /**
   One process lifetime: from a healthy process on, up to the next boot, the
   operations committed are the acknowledged ones in order, then at most the
   one that was in flight when the process died.
   */
  lemma {:induction false} OneLifetime(disk: Disk, before: seq<Action>, life: seq<Action>) returns (inFlight: seq<Op>)
    requires Exec(disk, before).process.Up?
    requires forall i | 0 <= i < |life| :: !life[i].Boot?
    ensures |inFlight| <= 1
    ensures inFlight != [] ==> Exec(disk, before + life).process.Down?
    ensures |Acknowledged(disk, before)| <= |Acknowledged(disk, before + life)|
    ensures Committed(disk, before + life)
         == Committed(disk, before) + Acknowledged(disk, before + life)[|Acknowledged(disk, before)|..] + inFlight
  {
    hide Step, Committed, Acknowledged, Exec;
    if life == [] {
      assert before + life == before;
      inFlight := [];
    } else {
      var front, a := life[..|life| - 1], life[|life| - 1];
      inFlight := OneLifetime(disk, before, front);
      assert before + life == before + front + [a];
      HistorySnoc(disk, before + front, a);
      var sys := Exec(disk, before + front);
      if CommitsInFlight(sys, a) {
        inFlight := [a.op];
      }
    }
  }

  /** Nothing is committed or acknowledged while the process is down. */
  lemma DownCommitsNothing(disk: Disk, actions: seq<Action>, a: Action)
    requires Exec(disk, actions).process.Down?
    ensures Committed(disk, actions + [a]) == Committed(disk, actions)
    ensures Acknowledged(disk, actions + [a]) == Acknowledged(disk, actions)
    ensures !Commits(Exec(disk, actions), a)
  {
    hide Step, Committed, Acknowledged, Exec;
    HistorySnoc(disk, actions, a);
  }

  // ----- durable acknowledgement and fail-stop -----

  /**
   After any call that was answered with success to a write, the target decodes
   to the live store; after any other answer it does so unless the process is blind.
   */
  lemma AcknowledgedIsOnDisk(disk: Disk, actions: seq<Action>, op: Op, end: CallEnd)
    requires SoundDisk(disk)
    ensures var (sys, reply) := Act(Exec(disk, actions), Call(op, end));
      && (reply.Answer? ==> sys.process.Up? && sys.process.fatalError.None?)
      && (reply.Answer? && !Blind(disk, actions) ==> Decoded(sys.disk.target) == Some(sys.process.runtime.store))
      && (reply.Answer? && Writes(op, reply.result) ==> sys.disk.target == Snapshot(sys.process.runtime.store))
  {
    hide Step, RunFrom, Recovers, Recovered, Exec, Blind, LineOf, SoundDisk, Agrees;
    ExecIsDurable(disk, actions);
    var before := Exec(disk, actions);
    if before.process.Up? && before.process.fatalError.None? {
      if !Blind(disk, actions) { EquivalentStores(before.process.runtime, LineOf(disk, actions).Result()); }
      if !Writes(op, Step(before.process.runtime, op).1) {
        ReadsChangeNothing(before.process.runtime, op);
      }
    }
  }

  /** A reply of the store failing latches the failure. */
  lemma FailureIsLatched(sys: System, op: Op, end: CallEnd)
    requires Act(sys, Call(op, end)).1.PersistenceFailed?
    ensures var (sys', reply) := Act(sys, Call(op, end));
        sys'.process.Up? && sys'.process.fatalError == Some(reply.error)
    ensures Act(sys, Call(op, end)).0.disk.target == sys.disk.target
  {
    hide Step;
  }

  /**
   Fail-stop: from a latched failure until the next boot, no operation body
   runs, every call is refused with that very error for as long as the process
   lives, and the disk never changes again.
   */
  lemma {:induction false} FailStop(sys: System, actions: seq<Action>, i: nat)
    requires sys.process.Up? && sys.process.fatalError.Some?
    requires forall j | 0 <= j < |actions| :: !actions[j].Boot?
    ensures ExecFrom(sys, actions) == sys || ExecFrom(sys, actions) == sys.(process := Down)
    ensures i < |actions| && actions[i].Call? ==>
              var now := ExecFrom(sys, actions[..i]);
              Act(now, actions[i]).1 == if now.process.Up? then StoreUnavailable(sys.process.fatalError.value)
                else NoReply
  {
    hide Served;
    if actions != [] {
      var front := actions[..|actions| - 1];
      FailStop(sys, front, i);
      if i < |actions| {
        assert i < |front| ==> front[..i] == actions[..i];
      }
    }
  }

  /**
   So a reply of a persistence failure is the last of its process: until the
   next boot every later call is refused with that error, and the target stays
   what it was before the call that failed.
   */
  lemma FailedReplyStops(sys: System, op: Op, end: CallEnd, later: seq<Action>, i: nat)
    requires Act(sys, Call(op, end)).1.PersistenceFailed?
    requires forall j | 0 <= j < |later| :: !later[j].Boot?
    ensures var (failed, reply) := Act(sys, Call(op, end));
      && ExecFrom(failed, later).disk == failed.disk
      && failed.disk.target == sys.disk.target
      && (i < |later| && later[i].Call? ==>
            var now := ExecFrom(failed, later[..i]);
            Act(now, later[i]).1 == if now.process.Up? then StoreUnavailable(reply.error) else NoReply)
  {
    hide Act;
    FailureIsLatched(sys, op, end);
    FailStop(Act(sys, Call(op, end)).0, later, i);
  }
}
