/**
 What a log has to say, without the kernel: the closed form of every stored
 field that startup and replay compare, and so of which logs they accept. The
 texts and thresholds are written out.
 */
module LogForm {
  import opened Rendering
  import opened Admission
  import opened GovernanceKernel
  import opened KernelHistory
  import opened Store
  import opened Runtime
  import opened Recovery
  import opened Verdicts

  // ----- texts -----

  /** The three transitions that suspend a domain, as an event stores them. */
  const SUSPENDING: seq<string> := [
    "trust-0001" + ":" + "Trust" + ":" + "Active -> Warning",
    "delegation-0001" + ":" + "Delegation" + ":" + "Active -> Degraded",
    "authorization-0001" + ":" + "Authorization" + ":" + "Active -> Suspended"]

  lemma PaddedOne()
    ensures Padded(0, 6) == "000000" && Padded(1, 6) == "000001" && Padded(1, 4) == "0001"
  {
    assert Decimal(0) == "0" && Decimal(1) == "1";
    assert Zeros(5) == "00000" && Zeros(3) == "000";
  }

  lemma VersionTexts()
    ensures StateVersion(0) == "state-000000" && StateVersion(1) == "state-000001"
  {
    hide Padded;
    PaddedOne();
  }

  lemma RelationTexts()
    ensures KernelId(Trust, 1) == "trust-0001"
    ensures KernelId(Delegation, 1) == "delegation-0001"
    ensures KernelId(Authorization, 1) == "authorization-0001"
  {
    hide Padded;
    PaddedOne();
  }

  lemma SuspendingTexts(cause: string)
    ensures RenderChanges([
              RelationChange(KernelId(Trust, 1), Trust, ActiveToWarning, cause),
              RelationChange(KernelId(Delegation, 1), Delegation, ActiveToDegraded, cause),
              RelationChange(KernelId(Authorization, 1), Authorization, ActiveToSuspended, cause)]) == SUSPENDING
  {
    hide KernelId, RenderChange;
    RelationTexts();
    var a := RelationChange(KernelId(Trust, 1), Trust, ActiveToWarning, cause);
    var b := RelationChange(KernelId(Delegation, 1), Delegation, ActiveToDegraded, cause);
    var c := RelationChange(KernelId(Authorization, 1), Authorization, ActiveToSuspended, cause);
    RenderThree(a, b, c);
    ChangeTexts(cause);
  }

  lemma ChangeTexts(cause: string)
    ensures RenderChange(RelationChange("trust-0001", Trust, ActiveToWarning, cause)) == SUSPENDING[0]
    ensures RenderChange(RelationChange("delegation-0001", Delegation, ActiveToDegraded, cause)) == SUSPENDING[1]
    ensures RenderChange(RelationChange("authorization-0001", Authorization, ActiveToSuspended, cause)) == SUSPENDING[2]
  {
  }

  lemma RenderThree(a: RelationChange, b: RelationChange, c: RelationChange)
    ensures RenderChanges([a, b, c]) == [RenderChange(a), RenderChange(b), RenderChange(c)]
  {
    hide RenderChange, RenderChanges;
    RenderNothing();
    RenderSnoc([], a);
    RenderSnoc([a], b);
    RenderSnoc([a, b], c);
    assert [] + [a] == [a] && [a] + [b] == [a, b] && [a, b] + [c] == [a, b, c];
  }

  lemma RenderSnoc(changes: seq<RelationChange>, c: RelationChange)
    ensures RenderChanges(changes + [c]) == RenderChanges(changes) + [RenderChange(c)]
  {
    hide RenderChange;
    assert (changes + [c])[..|changes|] == changes;
  }

  // ----- what the events of one domain say -----

  /** Judged under the current policy. */
  predicate Judgeable(e: StoredEvent) {
    e.replay.Some? && e.replay.value.policyVersion == "0.1"
  }

  predicate ScoreActs(score: nat, i: ReplayInput) {
    || (score >= 900_000 && i.reliability >= 800_000)
    || (score >= 700_000 && i.reliability >= 700_000 && i.corroborators >= 2)
  }

  /** One of its scores is strong or corroborated under the context it was stored with. */
  predicate Acts(e: StoredEvent) {
    && Judgeable(e)
    && var i := e.replay.value; ScoreActs(i.beyondScope, i) || ScoreActs(i.destructive, i)
  }

  ghost predicate HasActed(events: seq<StoredEvent>) {
    exists i | 0 <= i < |events| :: Acts(events[i])
  }

  function CountJudgeable(events: seq<StoredEvent>): nat {
    if events == [] then 0
    else CountJudgeable(events[..|events| - 1]) + if Judgeable(events[|events| - 1]) then 1 else 0
  }

  /**
   Event `e`, after the domain's earlier events, says what it has to: the kernel
   event id its place gives, the version its domain then has, and the suspending
   transitions exactly when it is the first that acts.
   */
  ghost predicate Tells(earlier: seq<StoredEvent>, e: StoredEvent) {
    && Judgeable(e)
    && e.kernelEventId == "ev-" + Padded(CountJudgeable(earlier) + 1, 4)
    && e.stateVersion == (if HasActed(earlier) || Acts(e) then "state-000001" else "state-000000")
    && e.transitions == (if Acts(e) && !HasActed(earlier) then SUSPENDING else [])
  }

  lemma JudgeableIsReplayable(e: StoredEvent)
    ensures Judgeable(e) <==> Replayable(e)
    ensures Replayable(e) ==> (Acts(e) <==> AcceptsEvidence(JudgmentOf(e), ContextOf(e)))
  {
  }

  lemma HasActedSnoc(events: seq<StoredEvent>, e: StoredEvent)
    ensures HasActed(events + [e]) <==> HasActed(events) || Acts(e)
  {
    hide Acts;
    var all := events + [e];
    if Acts(e) { assert Acts(all[|events|]); }
    if HasActed(events) {
      var i :| 0 <= i < |events| && Acts(events[i]);
      assert Acts(all[i]);
    }
  }

  /** The fold of any log, in closed form. */
  lemma {:induction false} FoldClosedForm(events: seq<StoredEvent>)
    ensures var t := FoldDomain(events);
      && Settled(t.domain, t.version)
      && (t.domain.kernel.state.authorization.AuthorizationSuspended? <==> HasActed(events))
      && t.domain.kernel.counters.event == CountJudgeable(events)
      && t.domain.kernel.counters.evidence == 2 * CountJudgeable(events)
  {
    FoldSettles(events);
    if events != [] {
      hide Settled, JudgeDomain, HasActed, Acts, AcceptsEvidence, JudgmentOf, ContextOf, Judgeable;
      var front, e := events[..|events| - 1], events[|events| - 1];
      var t := FoldDomain(front);
      FoldClosedForm(front);
      JudgeableIsReplayable(e);
      HasActedSnoc(front, e);
      assert front + [e] == events;
      if Replayable(e) {
        JudgeCounts(t.domain, JudgmentOf(e), ContextOf(e), Max(t.domain.nextVtick, ContextOf(e).now + 1));
        JudgeSettles(t.domain, t.version, JudgmentOf(e), ContextOf(e), Max(t.domain.nextVtick, ContextOf(e).now + 1));
      } else {
        ForeignNeverActs(e);
      }
    } else {
      assert !HasActed(events);
    }
  }

  lemma ForeignNeverActs(e: StoredEvent)
    requires !Judgeable(e)
    ensures !Acts(e)
  {
  }

  lemma JudgeCounts(ds: DomainState, j: Judgment, context: AdmissionContext, nextVtick: nat)
    ensures var k := JudgeDomain(ds, j, context, nextVtick).0.kernel;
      k.counters.event == ds.kernel.counters.event + 1 && k.counters.evidence == ds.kernel.counters.evidence + 2
  {
    hide Observe;
    ObserveEffect(ds.kernel, j, context);
  }

  /** What judging renders in a settled domain: the suspending transitions, or nothing. */
  lemma SettledChanges(ds: DomainState, version: nat, j: Judgment, context: AdmissionContext)
    requires Settled(ds, version)
    ensures var o := Observe(ds.kernel, j, context).1;
      var suspends := AcceptsEvidence(j, context) && ds.kernel.state.authorization.AuthorizationActive?;
      && o.eventId == KernelId(Event, ds.kernel.counters.event + 1)
      && RenderChanges(o.changes) == (if suspends then SUSPENDING else [])
      && (o.changes == [] <==> !suspends)
  {
    hide Observe, KernelId, RenderChanges, Admissible, Settled, ChainFrom;
    EvidenceIsExact(ds.kernel, j, context);
    var cause := CauseOf(ds.kernel, j, context);
    ChangesAreChain(ds.kernel, j, context);
    SettledChain(ds, version, cause);
    SuspendingTexts(cause);
    RenderNothing();
  }

  function CauseOf(k: Kernel, j: Judgment, context: AdmissionContext): string {
    KernelId(Evidence, if Admissible(j.beyondScope, context) then k.counters.evidence + 1 else k.counters.evidence + 2)
  }

  lemma ChangesAreChain(k: Kernel, j: Judgment, context: AdmissionContext)
    ensures Observe(k, j, context).1.changes
         == if AcceptsEvidence(j, context) then ChainFrom(k, CauseOf(k, j, context)) else []
  {
    hide Observe, KernelId, Admissible, ChainFrom, CandidateLine, DecisionLine;
    ObservationChanges(k, j, context);
    var chain := ChainFrom(k, CauseOf(k, j, context));
    assert chain + [] == chain && [] + chain == chain;
  }

  lemma RenderNothing()
    ensures RenderChanges([]) == []
  {
  }

  /** In a settled domain the protective chain has all three steps to go, or none. */
  lemma SettledChain(ds: DomainState, version: nat, cause: string)
    requires Settled(ds, version)
    ensures ChainFrom(ds.kernel, cause)
         == if ds.kernel.state.authorization.AuthorizationSuspended? then []
            else [RelationChange(KernelId(Trust, 1), Trust, ActiveToWarning, cause),
                  RelationChange(KernelId(Delegation, 1), Delegation, ActiveToDegraded, cause),
                  RelationChange(KernelId(Authorization, 1), Authorization, ActiveToSuspended, cause)]
  {
    hide KernelId;
  }

  /** An event is reproduced by the fold of what went before exactly when it tells that. */
  lemma ReproducedTells(earlier: seq<StoredEvent>, e: StoredEvent)
    requires e.replay.Some?
    ensures Reproduced(FoldDomain(earlier), e) <==> Tells(earlier, e)
  {
    hide Observe, Settled, StateVersion, KernelId, RenderChanges, HasActed, Acts, AcceptsEvidence, JudgmentOf,
      ContextOf, Judgeable, FoldDomain, CountJudgeable, Padded;
    JudgeableIsReplayable(e);
    FoldClosedForm(earlier);
    VersionTexts();
    if Replayable(e) {
      var t := FoldDomain(earlier);
      SettledChanges(t.domain, t.version, JudgmentOf(e), ContextOf(e));
      EventText(t.domain.kernel.counters.event + 1);
      VersionOfSettled(t.domain, t.version);
    }
  }

  lemma VersionOfSettled(ds: DomainState, version: nat)
    requires Settled(ds, version)
    ensures version == if ds.kernel.state.authorization.AuthorizationSuspended? then 1 else 0
  {
  }

  lemma EventText(n: nat)
    ensures KernelId(Event, n) == "ev-" + Padded(n, 4)
  {
    hide Padded;
  }

  // ----- exactly which logs start -----

  /**
   An event without an input carries no transitions, and any other tells what its
   own domain's earlier events demand.
   */
  ghost predicate TellsAt(events: seq<StoredEvent>, i: nat)
    requires i < |events|
  {
    if events[i].replay.None? then events[i].transitions == []
    else Tells(EventsFor(events[..i], events[i].domain), events[i])
  }

  /** The error that an event which does not tell what it has to is refused with. */
  function Refusal(e: StoredEvent): RecoveryError {
    if e.replay.None? then NoReplayInput(e.eventId)
    else if e.replay.value.policyVersion != "0.1" then PolicyUnavailable(e.eventId)
    else Diverged(e.eventId)
  }

  /** The first event that does not tell what it has to. */
  ghost predicate FirstRefused(events: seq<StoredEvent>, i: nat) {
    i < |events| && !TellsAt(events, i) && forall j: nat | j < i :: TellsAt(events, j)
  }

  lemma FaithfulTells(events: seq<StoredEvent>, i: nat)
    requires i < |events|
    ensures Faithful(events[..i], events[i]) <==> TellsAt(events, i)
  {
    hide Reproduced, Tells, FoldDomain, EventsFor;
    if events[i].replay.Some? {
      ReproducedTells(EventsFor(events[..i], events[i].domain), events[i]);
    }
  }

  lemma RefusedWith(r: Recovering, e: StoredEvent)
    requires RecoverEvent(r, e).Err?
    ensures RecoverEvent(r, e).error == Refusal(e)
  {
    hide JudgeDomain, Records, JudgmentOf, ContextOf;
  }

  /**
   The pass over any log succeeds exactly when every event tells what it has to,
   and otherwise reports the first that does not, by its id and by what is wrong.
   */
  lemma {:induction false} StartupClosedForm(events: seq<StoredEvent>)
    ensures RecoverLog(events).Ok? <==> forall i: nat | i < |events| :: TellsAt(events, i)
    ensures RecoverLog(events).Err? ==>
              exists i: nat :: FirstRefused(events, i) && RecoverLog(events).error == Refusal(events[i])
  {
    InterleavedPassIsFolds(events);
    hide RecoverEvent, Faithful, TellsAt, Refusal, HoldsFolds;
    forall i: nat | i < |events| ensures Faithful(events[..i], events[i]) <==> TellsAt(events, i) {
      FaithfulTells(events, i);
    }
    if RecoverLog(events).Err? {
      var n := |events| - 1;
      var front := events[..n];
      forall i: nat | i < n ensures TellsAt(front, i) <==> TellsAt(events, i) {
        TellsInPrefix(front, events[n], i);
        assert front + [events[n]] == events;
      }
      StartupClosedForm(front);
      if RecoverLog(front).Err? {
        var i: nat :| FirstRefused(front, i) && RecoverLog(front).error == Refusal(front[i]);
        assert FirstRefused(events, i) && front[i] == events[i];
      } else {
        RefusedWith(RecoverLog(front).value, events[n]);
        assert FirstRefused(events, n);
      }
    }
  }

  lemma TellsInPrefix(events: seq<StoredEvent>, e: StoredEvent, i: nat)
    requires i < |events|
    ensures TellsAt(events + [e], i) <==> TellsAt(events, i)
  {
    hide Tells;
    assert (events + [e])[..i] == events[..i];
  }

  // ----- exactly what replay reports -----

  ghost predicate TellsIn(events: seq<StoredEvent>, i: nat)
    requires i < |events|
  {
    events[i].replay.Some? ==> Tells(events[..i], events[i])
  }

  ghost predicate FirstUntold(events: seq<StoredEvent>, i: nat) {
    i < |events| && !TellsIn(events, i) && forall j: nat | j < i :: TellsIn(events, j)
  }

  /** Replay of any domain of any store: the first event that does not tell what it has to, or none. */
  lemma ReplayClosedForm(s: StoreState, d: DomainKey)
    ensures var r := ReplayTool(s, d); var events := EventsFor(s.events, d);
      && (r.firstDivergent.None? <==> forall i: nat | i < |events| :: TellsIn(events, i))
      && (r.firstDivergent.Some? ==>
            exists i: nat :: FirstUntold(events, i) && r.firstDivergent.value == events[i].eventId)
      && (r.replayMatch <==>
            r.firstDivergent.None? && StateCounter(s.versions, d) == (if HasActed(events) then 1 else 0))
  {
    ReplayReportsLeastDivergence(s, d);
    var r := ReplayTool(s, d);
    assert r.Replayed?;
    hide Diverges, TellsIn, ReplayTool, FoldDomain, HasActed, EventsFor, Settled;
    var events := EventsFor(s.events, d);
    forall i: nat | i < |events| ensures Diverges(events, i) <==> !TellsIn(events, i) {
      DivergesUntold(events, i);
    }
    FoldClosedForm(events);
    VersionOfSettled(FoldDomain(events).domain, FoldDomain(events).version);
    if r.firstDivergent.Some? {
      var i: nat :| LeastDivergence(events, i) && r.firstDivergent.value == events[i].eventId;
      assert FirstUntold(events, i);
    }
  }

  lemma DivergesUntold(events: seq<StoredEvent>, i: nat)
    requires i < |events|
    ensures Diverges(events, i) <==> !TellsIn(events, i)
  {
    hide Reproduced, Tells, FoldDomain;
    if events[i].replay.Some? {
      ReproducedTells(events[..i], events[i]);
    }
  }

  // ----- the clock that startup restores -----

  /** Startup restores a clock later than every judged event, and no later than one of them demands. */
  lemma {:induction false} RestoredClock(events: seq<StoredEvent>)
    ensures var clock := FoldDomain(events).domain.nextVtick;
      && (forall i | 0 <= i < |events| && Judgeable(events[i]) :: events[i].replay.value.now < clock)
      && (clock == 1 || exists i | 0 <= i < |events| && Judgeable(events[i]) :: clock == events[i].replay.value.now + 1)
  {
    if events != [] {
      hide Observe, Judgeable, JudgmentOf;
      var front, e := events[..|events| - 1], events[|events| - 1];
      RestoredClock(front);
      JudgeableIsReplayable(e);
      var clock := FoldDomain(events).domain.nextVtick;
      if clock == FoldDomain(front).domain.nextVtick && clock != 1 {
        var i :| 0 <= i < |front| && Judgeable(front[i]) && clock == front[i].replay.value.now + 1;
        assert events[i] == front[i];
      } else if clock != 1 {
        assert Judgeable(events[|events| - 1]) && clock == e.replay.value.now + 1;
      }
    }
  }

  /** So from any store that starts, the clock of every domain is past everything its log has judged. */
  lemma RecoveredClock(s: StoreState, d: DomainKey)
    requires Recovers(s)
    ensures var clock := DomainOf(Recovered(s).domains, d).nextVtick; var events := EventsFor(s.events, d);
      && (forall i | 0 <= i < |events| && Judgeable(events[i]) :: events[i].replay.value.now < clock)
      && (clock == 1 || exists i | 0 <= i < |events| && Judgeable(events[i]) :: clock == events[i].replay.value.now + 1)
  {
    hide Recovers, Recovered, FoldDomain, EventsFor, Judgeable;
    RecoveredHoldsFolds(s, d);
    RestoredClock(EventsFor(s.events, d));
  }
}
