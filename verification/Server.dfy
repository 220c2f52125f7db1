/**
 The runtime and the server as the program has them: objects updated in place,
 loops over the log, a health check on each side of every call. Each method is
 proved against the specification functions of `Runtime` and the machine of
 `Durability`, about which the theorems are.
 */
module Server {
  import opened Wrappers
  import opened Admission
  import opened GovernanceKernel
  import opened Store
  import opened Runtime
  import opened Recovery
  import opened JsonFile
  import opened Durability

  class DomainRuntime {
    const governance: Governance
    var nextVtick: nat
    var projected: Decision
    var governing: Option<string>

    ghost function View(): DomainState
      reads this, governance
    {
      DomainState(governance.View(), nextVtick, projected, governing)
    }

    constructor ()
      ensures View() == FRESH && fresh(governance)
    {
      governance := new Governance();
      nextVtick, projected, governing := 1, Allow, None;
    }

    method Judge(j: Judgment, context: AdmissionContext, nextVtick: nat) returns (outcome: Outcome)
      modifies this, governance
      ensures (View(), outcome) == JudgeDomain(old(View()), j, context, nextVtick)
    {
      hide Observe;
      outcome := governance.ObserveJudgment(j, context);
      projected := outcome.decision;
      this.nextVtick := nextVtick;
      var changes := outcome.changes;
      for i := 0 to |changes|
        invariant governing == LastAuthorization(changes[..i], old(governing))
        invariant View().(governing := None) == JudgeDomain(old(View()), j, context, nextVtick).0.(governing := None)
      {
        assert changes[..i + 1][..i] == changes[..i];
        if changes[i].relation == Authorization {
          governing := Some(changes[i].id);
        }
      }
      assert changes[..|changes|] == changes;
    }
  }

  /** The first divergence sticks and a policy change ends the scan. */
  lemma {:induction false} StoppedScanStays(events: seq<StoredEvent>, i: nat)
    requires i <= |events| && ScanReplay(events[..i]).stopped
    ensures ScanReplay(events) == ScanReplay(events[..i])
  {
    hide Observe, Records;
    if i < |events| {
      var front := events[..|events| - 1];
      assert front[..i] == events[..i];
      StoppedScanStays(front, i);
    } else {
      assert events[..i] == events;
    }
  }

  lemma EmptyScan()
    ensures ScanReplay([]) == NEW_SCAN
  {
  }

  /** The branches of one replay step, before the scan has stopped. */
  lemma ScanNext(events: seq<StoredEvent>, i: nat)
    requires i < |events|
    ensures var scan, e := ScanReplay(events[..i]), events[i];
      !scan.stopped ==>
        && (e.replay.None? ==> ScanReplay(events[..i + 1]) == scan)
        && (e.replay.Some? && !Replayable(e) ==>
              ScanReplay(events[..i + 1])
              == ReplayScan(scan.kernel, scan.version, scan.count + 1,
                            if scan.first.Some? then scan.first else Some(e.eventId), true))
        && (Replayable(e) ==>
              var (kernel, outcome) := Observe(scan.kernel, JudgmentOf(e), ContextOf(e));
              var version := if outcome.changes == [] then scan.version else scan.version + 1;
              ScanReplay(events[..i + 1])
              == ReplayScan(kernel, version, scan.count + 1,
                            if scan.first.Some? || Records(e, outcome, version) then scan.first else Some(e.eventId),
                            false))
  {
    hide Observe, Records;
    assert events[..i + 1][..i] == events[..i];
  }

  /** The branches of one recovery step. */
  lemma RecoverEventCases(r: Recovering, e: StoredEvent)
    ensures e.replay.None? ==>
              RecoverEvent(r, e) == if e.transitions != [] then Err(NoReplayInput(e.eventId)) else Ok(r)
    ensures e.replay.Some? && !Replayable(e) ==> RecoverEvent(r, e) == Err(PolicyUnavailable(e.eventId))
    ensures Replayable(e) ==>
              var ds := DomainOf(r.domains, e.domain);
              var (ds', outcome) := JudgeDomain(ds, JudgmentOf(e), ContextOf(e),
                Max(ds.nextVtick, ContextOf(e).now + 1));
              var version := Bumped(VersionOf(r.versions, e.domain), outcome);
              RecoverEvent(r, e)
              == if Records(e, outcome, version)
                then Ok(Recovering(r.domains[e.domain := ds'], r.versions[e.domain := version]))
                 else Err(Diverged(e.eventId))
  {
    hide JudgeDomain, Records;
  }

  ghost function Owned(domains: map<DomainKey, DomainRuntime>): set<object> {
    (set d: DomainRuntime | d in domains.Values :: d as object)
    + (set d: DomainRuntime | d in domains.Values :: d.governance as object)
  }

  lemma OwnedEntry(domains: map<DomainKey, DomainRuntime>, d: DomainKey)
    requires d in domains
    ensures domains[d] in Owned(domains) && domains[d].governance in Owned(domains)
  {
  }

  lemma NothingOwned()
    ensures Owned(map[]) == {}
  {
  }

  lemma InsertedFootprint(domains: map<DomainKey, DomainRuntime>, d: DomainKey, entry: DomainRuntime)
    requires d !in domains
    ensures Owned(domains[d := entry]) == Owned(domains) + {entry, entry.governance}
  {
    var after := domains[d := entry];
    assert after.Values == domains.Values + {entry} by {
      forall k | k in domains ensures domains[k] in after.Values { assert after[k] == domains[k]; }
      assert after[d] == entry;
    }
  }

  lemma DecideParts(rt: RuntimeState, ds: DomainState, p: DecideParams)
    requires ds == DomainOf(rt.domains, p.domain)
    ensures var d := DecisionFor(rt.store, ds, p);
      DecideTool(rt, p)
      == (RuntimeState(rt.domains[p.domain := ds], Decreed(rt.store, d)),
          Ok(Decided(d.decisionId, d.verdict, d.reasonCode, GoverningRelations(ds.governing, ds.projected),
                     ds.projected == Deny, d.stateVersion)))
  {
    hide DecisionFor, Decreed, GoverningRelations, DomainOf;
  }

  lemma ObserveParts(rt: RuntimeState, p: ObserveParams)
    ensures !p.InRange() ==> ObserveTool(rt, p) == (rt, Err(ConfidenceOutOfRange))
    ensures p.InRange() ==>
              var ds := DomainOf(rt.domains, p.domain);
              var (ds', outcome) := ObserveDomain(ds, p);
              var lines := NewLines(ds.kernel.provenance, ds'.kernel.provenance);
              var event := EventFor(rt.store, p.domain, p.action, outcome, InputFor(p, Demo(ds.nextVtick)), lines);
              ObserveTool(rt, p)
              == (RuntimeState(rt.domains[p.domain := ds'], Logged(rt.store, p.domain, outcome, event)),
                  Ok(Observed(event.eventId, outcome.evidence, event.transitions, event.stateVersion)))
  {
    hide ObserveDomain, EventFor, Logged, NewLines, InputFor, DomainOf;
  }

  class GovernanceRuntime {
    var domains: map<DomainKey, DomainRuntime>
    const store: JsonFileEventStore

    /** Every domain owns its runtime and its kernel. */
    ghost predicate Valid()
      reads this
    {
      forall j, k | j in domains && k in domains && j != k ::
        domains[j] != domains[k] && domains[j].governance != domains[k].governance
    }

    ghost function Footprint(): (objects: set<object>)
      reads this
      ensures this in objects
    {
      {this} + Owned(domains)
    }

    ghost function DomainViews(): map<DomainKey, DomainState>
      reads this, domains.Values, set d | d in domains.Values :: d.governance
    {
      map k | k in domains :: domains[k].View()
    }

    ghost function View(): RuntimeState
      reads this, domains.Values, set d | d in domains.Values :: d.governance
      reads store.inner
    {
      RuntimeState(DomainViews(), store.inner.View())
    }

    constructor (store: JsonFileEventStore)
      ensures this.store == store && domains == map[] && Valid()
    {
      this.store, domains := store, map[];
    }

    lemma StoreIsApart()
      ensures store !in Footprint() && store.inner !in Footprint() && store.disk !in Footprint()
    {
    }

    /** The domain's entry, inserted fresh on first use. */
    method Entry(d: DomainKey) returns (entry: DomainRuntime)
      requires Valid()
      modifies this`domains
      ensures Valid() && d in domains && domains[d] == entry
      ensures forall k | k in old(domains) :: k in domains && domains[k] == old(domains[k])
      ensures forall k | k in domains :: k == d || k in old(domains)
      ensures d !in old(domains) ==> fresh(entry) && fresh(entry.governance)
      ensures fresh(Footprint() - old(Footprint()))
      ensures entry in Footprint() && entry.governance in Footprint()
      ensures entry.View() == DomainOf(old(DomainViews()), d)
      ensures DomainViews() == old(DomainViews())[d := entry.View()]
    {
      hide Owned;
      if d in domains {
        entry := domains[d];
        OwnedEntry(domains, d);
      } else {
        entry := new DomainRuntime();
        InsertedFootprint(domains, d, entry);
        domains := domains[d := entry];
        assert Footprint() == old(Footprint()) + {entry, entry.governance};
      }
    }

    /** Judging in one domain's entry moves that entry alone. */
    method JudgeIn(d: DomainKey, j: Judgment, context: AdmissionContext, nextVtick: nat) returns (outcome: Outcome)
      requires Valid() && d in domains
      modifies domains[d], domains[d].governance
      ensures (domains[d].View(), outcome) == JudgeDomain(old(domains[d].View()), j, context, nextVtick)
      ensures DomainViews() == old(DomainViews())[d := domains[d].View()]
      ensures Valid() && Footprint() == old(Footprint())
    {
      hide JudgeDomain;
      outcome := domains[d].Judge(j, context, nextVtick);
    }

    /** Startup: one pass over the log, then the final version of every domain it touched. */
    static method TryWithStore(store: JsonFileEventStore) returns (r: Result<GovernanceRuntime, RecoveryError>)
      ensures store.fatalError.Some? ==> r == Err(Unhealthy(store.fatalError.value))
      ensures store.fatalError.None? ==> (r.Ok? <==> Recovers(store.inner.View()))
      ensures store.fatalError.None? && RecoverLog(store.inner.events).Err? ==>
                r == Err(RecoverLog(store.inner.events).error)
      ensures r.Ok? ==>
                && fresh(r.value.Footprint()) && r.value.store == store && r.value.Valid()
                && r.value.View() == Recovered(store.inner.View())
    {
      hide RecoverLog, VersionsAgree;
      if store.fatalError.Some? {
        return Err(Unhealthy(store.fatalError.value));
      }
      var runtime, versions, error := RecoverAll(store);
      if error.Some? {
        return Err(error.value);
      }
      var mismatch := FirstMismatch(versions, store.inner);
      r := if mismatch.Some? then Err(VersionMismatch(mismatch.value)) else Ok(runtime);
    }

    /** The pass over the log; stops at the first error. */
    static method RecoverAll(store: JsonFileEventStore)
      returns (runtime: GovernanceRuntime, versions: map<DomainKey, nat>, error: Option<RecoveryError>)
      ensures fresh(runtime) && fresh(runtime.Footprint()) && runtime.store == store && runtime.Valid()
      ensures RecoverLog(store.inner.events)
           == if error.Some? then Err(error.value) else Ok(Recovering(runtime.DomainViews(), versions))
    {
      hide RecoverEvent;
      runtime := new GovernanceRuntime(store);
      assert fresh(runtime.Footprint()) by { NothingOwned(); }
      var events := store.inner.events;
      versions := map[];
      for i := 0 to |events|
        invariant fresh(runtime.Footprint()) && fresh(runtime) && runtime.Valid()
        invariant RecoverLog(events[..i]) == Ok(Recovering(runtime.DomainViews(), versions))
      {
        assert events[..i + 1][..i] == events[..i];
        error, versions := runtime.RecoverOne(events[i], versions);
        if error.Some? {
          RecoveryErrorStays(events, i + 1);
          return;
        }
      }
      assert events[..|events|] == events;
      error := None;
    }

    /** The final versions, visited in no particular order. */
    static method FirstMismatch(versions: map<DomainKey, nat>, inner: MemoryEventStore)
        returns (mismatch: Option<DomainKey>)
      ensures mismatch.None? <==> VersionsAgree(versions, inner.View())
      ensures mismatch.Some? ==>
                && mismatch.value in versions
                && StateVersion(versions[mismatch.value]) != StateVersion(StateCounter(inner.versions, mismatch.value))
    {
      hide StateVersion;
      var pending := versions.Keys;
      while pending != {}
        invariant pending <= versions.Keys
        invariant forall d | d in versions && d !in pending ::
            StateVersion(versions[d]) == StateVersion(StateCounter(inner.versions, d))
        decreases pending
      {
        var d :| d in pending;
        if StateVersion(versions[d]) != inner.CurrentStateVersion(d) {
          return Some(d);
        }
        pending := pending - {d};
      }
      mismatch := None;
    }

    method RecoverOne(e: StoredEvent, versions: map<DomainKey, nat>)
      returns (error: Option<RecoveryError>, versions': map<DomainKey, nat>)
      requires Valid()
      modifies Footprint()
      ensures Valid() && fresh(Footprint() - old(Footprint()))
      ensures var r := RecoverEvent(Recovering(old(DomainViews()), versions), e);
        if error.Some? then r == Err(error.value) else r == Ok(Recovering(DomainViews(), versions'))
    {
      hide RecoverEvent, JudgeDomain, Records, JudgmentOf, DomainOf, VersionOf, Bumped, Footprint, Owned, Valid;
      RecoverEventCases(Recovering(DomainViews(), versions), e);
      error, versions' := None, versions;
      if e.replay.None? {
        if e.transitions != [] {
          error := Some(NoReplayInput(e.eventId));
        }
        return;
      }
      if e.replay.value.policyVersion != POLICY_VERSION {
        error := Some(PolicyUnavailable(e.eventId));
        return;
      }
      ghost var before := DomainViews();
      var d := e.domain;
      var entry := Entry(d);
      var context := ContextOf(e);
      var outcome := JudgeIn(d, JudgmentOf(e), context, Max(entry.nextVtick, context.now + 1));
      var version := Bumped(VersionOf(versions, d), outcome);
      versions' := versions[d := version];
      assert DomainViews() == before[d := entry.View()];
      if !Records(e, outcome, version) {
        error := Some(Diverged(e.eventId));
      }
    }

    method Observe(p: ObserveParams) returns (r: Result<Response, RuntimeError>, ghost end: PersistEnd)
      requires Valid()
      modifies Footprint(), store`fatalError, store.inner, store.disk
      ensures Valid() && fresh(Footprint() - old(Footprint()))
      ensures (View(), r) == ObserveTool(old(View()), p)
      ensures if r.Ok? then PersistStep(old(store.Status()), store.inner.View(), end, store.Status())
              else store.Status() == old(store.Status())
    {
      hide ObserveDomain, EventFor, Logged, NewLines, InputFor, PersistStep, DomainOf, ObserveTool, Owned, Footprint,
        Valid;
      ghost var before := View();
      end := Persisted;
      ObserveParts(before, p);
      if !p.InRange() {
        return Err(ConfidenceOutOfRange), end;
      }
      StoreIsApart();
      var outcome, input, lines := ObserveInDomain(p);
      ghost var after := DomainViews();
      assert store.inner.View() == before.store && store.Status() == old(store.Status());
      var event;
      event, end := LogObservation(p.domain, p.action, outcome, input, lines);
      assert DomainViews() == after;
      r := Ok(Observed(event.eventId, outcome.evidence, event.transitions, event.stateVersion));
    }

    /** The part of an observation that touches the store: advance on change, allocate the id, record, persist. */
    method LogObservation(d: DomainKey, action: string, outcome: Outcome, input: ReplayObservation, lines: seq<string>)
      returns (event: StoredEvent, ghost end: PersistEnd)
      modifies store`fatalError, store.inner, store.disk
      ensures event == EventFor(old(store.inner.View()), d, action, outcome, input, lines)
      ensures store.inner.View() == Logged(old(store.inner.View()), d, outcome, event)
      ensures PersistStep(old(store.Status()), store.inner.View(), end, store.Status())
    {
      hide EventHeader, RenderChanges, StateVersion, EventId, PersistStep;
      var transitions := RenderChanges(outcome.changes);
      var stateVersion: string;
      if outcome.changes == [] {
        stateVersion := store.inner.CurrentStateVersion(d);
      } else {
        stateVersion := store.inner.AdvanceStateVersion(d);
      }
      var eventId := store.inner.NextEventId();
      var header := EventHeader(eventId, outcome.eventId, d);
      event := StoredEvent(eventId, outcome.eventId, d, action, stateVersion, transitions, [header] + lines,
                           Some(input));
      end := store.RecordEvent(event);
    }

    /** The part of an observation that touches the domain's entry. */
    method ObserveInDomain(p: ObserveParams) returns (outcome: Outcome, input: ReplayObservation, lines: seq<string>)
      requires Valid() && p.InRange()
      modifies Footprint()
      ensures Valid() && fresh(Footprint() - old(Footprint()))
      ensures var before := DomainOf(old(DomainViews()), p.domain); var (after, o) := ObserveDomain(before, p);
        && outcome == o
        && DomainViews() == old(DomainViews())[p.domain := after]
        && input == InputFor(p, Demo(before.nextVtick))
        && lines == NewLines(before.kernel.provenance, after.kernel.provenance)
    {
      hide JudgeDomain, JudgmentFor, NewLines, InputFor, DomainOf, Footprint, Owned, Valid;
      var d := p.domain;
      var entry := Entry(d);
      ghost var before := entry.View();
      var context := Demo(entry.nextVtick);
      input := InputFor(p, context);
      var start := entry.governance.provenance;
      outcome := JudgeIn(d, JudgmentFor(p), context, entry.nextVtick + 1);
      lines := NewLines(start, entry.governance.provenance);
      assert entry.View() == ObserveDomain(before, p).0;
      assert DomainViews() == old(DomainViews())[d := entry.View()];
    }

    method Decide(p: DecideParams) returns (r: Result<Response, RuntimeError>, ghost end: PersistEnd)
      requires Valid()
      modifies this`domains, store`fatalError, store.inner, store.disk
      ensures Valid() && fresh(Footprint() - old(Footprint()))
      ensures (View(), r) == DecideTool(old(View()), p)
      ensures r.Ok? && PersistStep(old(store.Status()), store.inner.View(), end, store.Status())
    {
      hide DecisionFor, Decreed, PersistStep, GoverningRelations, DomainOf, DecideTool;
      ghost var before := View();
      var entry := Entry(p.domain);
      ghost var after := DomainViews();
      ghost var ds := entry.View();
      var record;
      record, end := LogDecision(p, entry);
      assert DomainViews() == after;
      DecideParts(before, ds, p);
      var relations := GoverningRelations(entry.governing, entry.projected);
      r := Ok(Decided(record.decisionId, record.verdict, record.reasonCode, relations, entry.projected == Deny,
                      record.stateVersion));
    }

    /** The part of a decision that touches the store: gather the chain, allocate the id, record, persist. */
    method LogDecision(p: DecideParams, entry: DomainRuntime) returns (record: StoredDecision, ghost end: PersistEnd)
      modifies store`fatalError, store.inner, store.disk
      ensures record == DecisionFor(old(store.inner.View()), entry.View(), p)
      ensures store.inner.View() == Decreed(old(store.inner.View()), record)
      ensures PersistStep(old(store.Status()), store.inner.View(), end, store.Status())
    {
      hide StateVersion, DecisionId, DecisionTrail, CausalChain, Decision.Name, EventsFor, PersistStep;
      var provenance := Chain(store.inner.EventsForDomain(p.domain));
      var decisionId := store.inner.NextDecisionId();
      var stateVersion := store.inner.CurrentStateVersion(p.domain);
      var verdict := entry.projected.Name();
      var reasonCode := if entry.projected == Allow then ACTIVE_CODE else SUSPENDED_CODE;
      provenance := provenance + [DecisionTrail(decisionId, p.domain, stateVersion, verdict, p.action)];
      record := StoredDecision(decisionId, p.domain, p.action, verdict, reasonCode, entry.governing, stateVersion,
        provenance);
      end := store.RecordDecision(record);
    }

    method RecordOutcome(p: OutcomeParams) returns (r: Result<Response, RuntimeError>, ghost end: PersistEnd)
      modifies store`fatalError, store.inner, store.disk
      ensures (store.inner.View(), r) == OutcomeTool(old(store.inner.View()), p)
      ensures if r.Ok? then PersistStep(old(store.Status()), store.inner.View(), end, store.Status())
              else store.Status() == old(store.Status())
    {
      hide StateVersion, OutcomeId;
      end := Persisted;
      var found := FindDecision(store.inner.decisions, p.decisionId);
      if found.None? {
        return Err(UnknownDecisionId(p.decisionId)), end;
      }
      var d := found.value;
      var outcomeId := store.inner.NextOutcomeId();
      var stateVersion := store.inner.CurrentStateVersion(d.domain);
      end := store.RecordOutcome(StoredOutcome(outcomeId, d.decisionId, d.domain, p.outcome.Name(), p.detail,
        stateVersion));
      r := Ok(OutcomeRecorded(outcomeId, d.decisionId, p.outcome.Name(), stateVersion));
    }

    /**
     The replay loop: goes on after a mismatch, breaks off at a policy change, and
     only the first divergence sticks.
     */
    method Replay(d: DomainKey) returns (r: Response)
      ensures r == ReplayTool(store.inner.View(), d)
    {
      hide GovernanceKernel.Observe, Records, StateVersion, ScanReplay, ScanEvent, EventsFor;
      var events := store.inner.EventsForDomain(d);
      var recorded := store.inner.CurrentStateVersion(d);
      var governance := new Governance();
      var version, count := 0, 0;
      var first: Option<string> := None;
      ghost var stopped := false;
      assert events[..0] == [] && ScanReplay([]) == NEW_SCAN by { EmptyScan(); }
      for i := 0 to |events|
        invariant ReplayScan(governance.View(), version, count, first, stopped) == ScanReplay(events[..i])
        invariant !stopped && fresh(governance)
      {
        var e := events[i];
        ScanNext(events, i);
        if e.replay.None? {
          continue;
        }
        count := count + 1;
        if e.replay.value.policyVersion != POLICY_VERSION {
          if first.None? {
            first := Some(e.eventId);
          }
          stopped := true;
          StoppedScanStays(events, i + 1);
          assert ReplayScan(governance.View(), version, count, first, stopped) == ScanReplay(events);
          break;
        }
        var outcome := governance.ObserveJudgment(JudgmentOf(e), ContextOf(e));
        if outcome.changes != [] {
          version := version + 1;
        }
        if !Records(e, outcome, version) && first.None? {
          first := Some(e.eventId);
        }
      }
      assert events[..|events|] == events;
      var replayed := StateVersion(version);
      r := Replayed(first.None? && recorded == replayed, recorded, replayed, count, first);
    }
  }

  /** The disk a crash somewhere in this call leaves. */
  ghost predicate CrashDisk(sys: System, op: Op, disk: Disk) {
    exists point :: Act(sys, Call(op, Crashes(point))).0.disk == disk
  }

  lemma CrashStateIsCrashDisk(sys: System, op: Op, disk: Disk)
    requires sys.process.Up? && sys.process.fatalError.None?
    requires Writes(op, Step(sys.process.runtime, op).1)
    requires CrashState(sys.disk, Step(sys.process.runtime, op).0.store, disk)
    ensures CrashDisk(sys, op, disk)
  {
    hide Step;
    var point :| disk == AfterCrash(sys.disk, Step(sys.process.runtime, op).0.store, point);
    assert Act(sys, Call(op, Crashes(point))).0.disk == disk;
  }

  class R2rMcpServer {
    const runtime: GovernanceRuntime

    ghost predicate Valid()
      reads runtime
    {
      runtime.Valid()
    }

    /** The served store as a system of the durability machine. */
    ghost function View(): System
      reads runtime, runtime.domains.Values, set d: DomainRuntime | d in runtime.domains.Values :: d.governance
      reads runtime.store, runtime.store.inner, runtime.store.disk
    {
      System(runtime.store.disk.View(), Up(runtime.View(), runtime.store.fatalError))
    }

    constructor (runtime: GovernanceRuntime)
      ensures this.runtime == runtime
    {
      this.runtime := runtime;
    }

    /** Opening the store and recovering from it is the machine's boot. */
    static method Start(disk: DiskDevice, look: Look) returns (server: Option<R2rMcpServer>)
      ensures server.Some? <==> Booted(disk.View(), look).Up?
      ensures server.Some? ==>
                && server.value.Valid()
                && server.value.View() == System(disk.View(), Booted(disk.View(), look))
    {
      hide Recovers, Recovered;
      var store := JsonFileEventStore.Open(disk, look);
      if store.None? {
        return None;
      }
      var runtime := GovernanceRuntime.TryWithStore(store.value);
      if runtime.Err? {
        return None;
      }
      var s := new R2rMcpServer(runtime.value);
      server := Some(s);
    }

    method Dispatch(op: Op) returns (r: Result<Response, RuntimeError>, ghost end: PersistEnd)
      requires Valid()
      modifies runtime.Footprint(), runtime.store`fatalError, runtime.store.inner, runtime.store.disk
      ensures Valid()
      ensures (runtime.View(), r) == Step(old(runtime.View()), op)
      ensures if Writes(op, r) then PersistStep(old(runtime.store.Status()), runtime.View().store, end,
          runtime.store.Status())
              else runtime.store.Status() == old(runtime.store.Status())
    {
      hide ObserveTool, DecideTool, OutcomeTool, ExplainTool, ReplayTool, PersistStep;
      end := Persisted;
      match op {
        case ObserveOp(p) =>
          r, end := runtime.Observe(p);
        case DecideOp(p) =>
          r, end := runtime.Decide(p);
        case OutcomeOp(p) =>
          ghost var domains := runtime.DomainViews();
          r, end := runtime.RecordOutcome(p);
          assert runtime.DomainViews() == domains;
        case ExplainOp(id) =>
          r := ExplainTool(runtime.store.inner.Snapshot(), id);
        case ReplayOp(d) =>
          var replayed := runtime.Replay(d);
          r := Ok(replayed);
      }
    }

    /** A tool call: no operation body runs on an unhealthy store, and no answer leaves one. */
    method WithRuntime(op: Op) returns (reply: Reply, ghost end: PersistEnd)
      requires Valid()
      modifies runtime.Footprint(), runtime.store`fatalError, runtime.store.inner, runtime.store.disk
      ensures Valid()
      ensures (View(), reply) == Act(old(View()), Call(op, Returns(end)))
      ensures old(runtime.store.disk.history) <= runtime.store.disk.history
      ensures forall i | |old(runtime.store.disk.history)| <= i < |runtime.store.disk.history| ::
                CrashDisk(old(View()), op, runtime.store.disk.history[i])
    {
      hide Step;
      end := Persisted;
      if !runtime.store.Healthy() {
        return StoreUnavailable(runtime.store.fatalError.value), end;
      }
      var r;
      ghost var before := View();
      r, end := Dispatch(op);
      forall i | |old(runtime.store.disk.history)| <= i < |runtime.store.disk.history|
        ensures CrashDisk(before, op, runtime.store.disk.history[i])
      {
        CrashStateIsCrashDisk(before, op, runtime.store.disk.history[i]);
      }
      if !runtime.store.Healthy() {
        return PersistenceFailed(runtime.store.fatalError.value), end;
      }
      reply := Answer(r);
    }
  }

  method Chain(events: seq<StoredEvent>) returns (lines: seq<string>)
    ensures lines == CausalChain(events)
  {
    lines := [];
    for i := 0 to |events|
      invariant lines == CausalChain(events[..i])
    {
      assert events[..i + 1][..i] == events[..i];
      lines := lines + events[i].provenance;
    }
    assert events[..|events|] == events;
  }
}
