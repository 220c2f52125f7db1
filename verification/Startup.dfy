/**
 Which stores keep starting. A store that starts but holds a version its log
 does not explain stops starting at the first observation of that domain,
 although that observation is written and answered.
 */
module Startup {
  import opened Wrappers
  import opened Store
  import opened Runtime
  import opened Recovery
  import opened Reachable
  import opened JsonFile
  import opened Durability

  // ----- a refused log stays refused -----

  /** The disk and any live process hold this log or a longer one. */
  ghost predicate Continues(sys: System, log: seq<StoredEvent>) {
    && Decoded(sys.disk.target).Some?
    && log <= Decoded(sys.disk.target).value.events
    && (sys.process.Up? ==> log <= sys.process.runtime.store.events)
  }

  lemma StepKeepsEvents(rt: RuntimeState, op: Op)
    ensures rt.store.events <= Step(rt, op).0.store.events
  {
    hide ObserveDomain, ObservedEvent, DecisionRecord, FindDecision, StateVersion, ReplayTool, ExplainTool;
  }

  lemma RefusedStaysRefused(log: seq<StoredEvent>, s: StoreState)
    requires RecoverLog(log).Err? && log <= s.events
    ensures !Recovers(s)
  {
    hide RecoverLog, VersionsAgree;
    assert s.events[..|log|] == log;
    RecoveryErrorStays(s.events, |log|);
  }

  lemma ActContinues(sys: System, a: Action, log: seq<StoredEvent>)
    requires Continues(sys, log) && RecoverLog(log).Err?
    requires a.Boot? ==> !a.look.Missed?
    ensures Continues(Act(sys, a).0, log)
  {
    hide Step, RecoverLog, Recovers, Recovered;
    if a.Call? && sys.process.Up? {
      StepKeepsEvents(sys.process.runtime, a.op);
    }
    if a.Boot? {
      RefusedStaysRefused(log, Decoded(sys.disk.target).value);
    }
  }

  lemma {:induction false} HistoryContinues(sys: System, actions: seq<Action>, log: seq<StoredEvent>)
    requires Continues(sys, log) && RecoverLog(log).Err?
    requires forall a | a in actions && a.Boot? :: !a.look.Missed?
    ensures Continues(ExecFrom(sys, actions), log)
  {
    hide Act, RecoverLog, Continues;
    if actions != [] {
      HistoryContinues(sys, actions[..|actions| - 1], log);
      ActContinues(ExecFrom(sys, actions[..|actions| - 1]), actions[|actions| - 1], log);
    }
  }

  lemma {:induction false} ExecAppends(sys: System, actions: seq<Action>, more: seq<Action>)
    ensures ExecFrom(sys, actions + more) == ExecFrom(ExecFrom(sys, actions), more)
  {
    hide Act;
    if more == [] {
      assert actions + more == actions;
    } else {
      assert (actions + more)[..|actions + more| - 1] == actions + more[..|more| - 1];
      ExecAppends(sys, actions, more[..|more| - 1]);
    }
  }

  // ----- the observation that stops it -----

  lemma UnexplainedVersion(s: StoreState, d: DomainKey)
    requires Recovers(s)
    ensures ReplayTool(s, d).replayMatch <==> StateCounter(s.versions, d) == FoldDomain(EventsFor(s.events, d)).version
  {
    hide ReplayTool, RecoverLog, FoldDomain, EventsFor;
    InterleavedPassIsFolds(s.events);
    FaithfulDomainReplays(s, d);
  }

  lemma ObserveRefused(s: StoreState, p: ObserveParams)
    requires Recovers(s) && p.InRange() && !ReplayTool(s, p.domain).replayMatch
    ensures RecoverLog(ObserveTool(Recovered(s), p).0.store.events).Err?
  {
    hide RecoverLog, FoldDomain, EventsFor, ReplayTool, ObservedEvent;
    UnexplainedVersion(s, p.domain);
    RecoveredObserves(s, p);
    FaithfulSnoc(s.events, ObservedEvent(Recovered(s), p));
    InterleavedPassIsFolds(s.events + [ObservedEvent(Recovered(s), p)]);
  }

  /** A start that reads the file, and one observation that is written and answered. */
  function StartAndObserve(p: ObserveParams): seq<Action> {
    [Boot(Readable), Call(ObserveOp(p), Returns(Persisted))]
  }

  lemma ReadableOpens(content: FileContent)
    ensures Opened(content, Readable) == Decoded(content)
  {
  }

  lemma ObservationIsWritten(disk: Disk, p: ObserveParams)
    requires Booted(disk, Readable).Up? && p.InRange()
    requires !ReplayTool(Decoded(disk.target).value, p.domain).replayMatch
    ensures Recovers(Decoded(disk.target).value)
    ensures var log := ObserveTool(Recovered(Decoded(disk.target).value), p).0.store.events;
      && Acknowledges(Exec(disk, [Boot(Readable)]), StartAndObserve(p)[1])
      && Continues(Exec(disk, StartAndObserve(p)), log)
      && RecoverLog(log).Err?
  {
    hide RecoverLog, Recovers, Recovered, ReplayTool, ObserveDomain, ObservedEvent, RecoverEvent;
    ObserveRefused(Decoded(disk.target).value, p);
    var s, first := Decoded(disk.target).value, [Boot(Readable)];
    ReadableOpens(disk.target);
    assert first[..|first| - 1] == [] && StartAndObserve(p)[..|StartAndObserve(p)| - 1] == first;
    assert Exec(disk, []) == System(disk, Down);
    assert Exec(disk, first) == System(disk, Up(Recovered(s), None));
  }

  /**
   From any store that starts: an observation in a domain that does not replay is
   answered and written, and no later start that sees the file comes up again,
   whatever the live process goes on to do.
   */
  lemma ObservationStopsStartup(disk: Disk, p: ObserveParams, later: seq<Action>, look: Look)
    requires Booted(disk, Readable).Up? && p.InRange()
    requires !ReplayTool(Decoded(disk.target).value, p.domain).replayMatch
    requires !look.Missed? && forall a | a in later && a.Boot? :: !a.look.Missed?
    ensures Acknowledges(Exec(disk, [Boot(Readable)]), StartAndObserve(p)[1])
    ensures Booted(Exec(disk, StartAndObserve(p) + later).disk, look).Down?
  {
    hide RecoverLog, Recovers, Recovered, ReplayTool, ObserveTool, ExecFrom, Continues, Act;
    ReadableOpens(disk.target);
    var log := ObserveTool(Recovered(Decoded(disk.target).value), p).0.store.events;
    ObservationIsWritten(disk, p);
    var after := Exec(disk, StartAndObserve(p));
    HistoryContinues(after, later, log);
    ExecAppends(System(disk, Down), StartAndObserve(p), later);
    LongerIsRefused(ExecFrom(after, later), log, look);
  }

  lemma LongerIsRefused(sys: System, log: seq<StoredEvent>, look: Look)
    requires Continues(sys, log) && RecoverLog(log).Err? && !look.Missed?
    ensures Booted(sys.disk, look).Down?
  {
    hide RecoverLog, Recovers, Recovered;
    RefusedStaysRefused(log, Decoded(sys.disk.target).value);
  }

  // ----- exactly which stores keep starting -----

  function Harmless(d: DomainKey): ObserveParams {
    ObserveParams("", d, "", "", "", 0, 0)
  }

  /**
   A store that starts keeps starting after every history, crashes, failures and
   missed targets included, if and only if every domain of it replays.
   */
  lemma StartupIsExact(disk: Disk)
    requires Booted(disk, Readable).Up?
    ensures (forall actions: seq<Action> :: Booted(Exec(disk, actions).disk, Readable).Up?)
       <==> forall d: DomainKey :: ReplayTool(Decoded(disk.target).value, d).replayMatch
  {
    hide Exec, Recovers, ScanReplay, Equivalent, LineOf, Blind, Intact, Committed;
    if forall d: DomainKey :: ReplayTool(Decoded(disk.target).value, d).replayMatch {
      forall actions: seq<Action> ensures Booted(Exec(disk, actions).disk, Readable).Up? {
        CrashRecovery(disk, actions);
      }
    } else {
      var d: DomainKey :| !ReplayTool(Decoded(disk.target).value, d).replayMatch;
      ObservationStopsStartup(disk, Harmless(d), [], Readable);
      assert Booted(Exec(disk, StartAndObserve(Harmless(d)) + []).disk, Readable).Down?;
    }
  }

  /**
   A snapshot that writers of the store's own interface can leave: a version
   advanced and a decision, but no event.
   */
  function VersionWithoutEvents(decision: StoredDecision): StoreState {
    EMPTY_STORE.(versions := [DomainVersion(decision.domain, 1)], decisions := [decision], decisionCounter := 1)
  }

  /** It starts; after one acknowledged observation with both scores zero it never starts again. */
  lemma StartsOnce(decision: StoredDecision, temp: FileContent)
    ensures var disk := Disk(Snapshot(VersionWithoutEvents(decision)), temp);
      var actions := StartAndObserve(Harmless(decision.domain));
      && Booted(disk, Readable).Up?
      && Acknowledges(Exec(disk, [Boot(Readable)]), actions[1])
      && Booted(Exec(disk, actions).disk, Readable).Down?
  {
    var s := VersionWithoutEvents(decision);
    var disk := Disk(Snapshot(s), temp);
    assert EventsFor(s.events, decision.domain) == [];
    InputlessDomainReplays(s, decision.domain);
    hide ReplayTool;
    var actions := StartAndObserve(Harmless(decision.domain));
    ObservationStopsStartup(disk, Harmless(decision.domain), [], Readable);
    assert actions + [] == actions;
  }
}
