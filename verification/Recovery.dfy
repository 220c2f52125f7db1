/**
 Recovery and replay on arbitrary logs, reachable or not. The interleaved pass
 over every domain is shown to equal one fold per domain, and startup to
 succeed exactly when every domain replays.
 */
module Recovery {
  import opened GovernanceKernel
  import opened Store
  import opened Runtime

  // ----- the independent reference: one fold over one domain's events -----

  datatype Track = Track(domain: DomainState, version: nat)

  function Rejudge(t: Track, e: StoredEvent): (DomainState, Outcome)
    requires Replayable(e)
  {
    JudgeDomain(t.domain, JudgmentOf(e), ContextOf(e), Max(t.domain.nextVtick, ContextOf(e).now + 1))
  }

  function Advanced(t: Track, e: StoredEvent): Track {
    if !Replayable(e) then t
    else
      var (ds, outcome) := Rejudge(t, e);
      Track(ds, Bumped(t.version, outcome))
  }

  function FoldDomain(events: seq<StoredEvent>): Track {
    if events == [] then Track(FRESH, 0) else Advanced(FoldDomain(events[..|events| - 1]), events[|events| - 1])
  }

  /** The event can be judged again and says what judging it again, after `t`, says. */
  predicate Reproduced(t: Track, e: StoredEvent) {
    && Replayable(e)
    && var (_, outcome) := Rejudge(t, e); Records(e, outcome, Bumped(t.version, outcome))
  }

  /** What is asked of an event placed after `earlier`: no transitions if it has no input, else to be reproduced. */
  predicate Faithful(earlier: seq<StoredEvent>, e: StoredEvent) {
    if e.replay.None? then e.transitions == [] else Reproduced(FoldDomain(EventsFor(earlier, e.domain)), e)
  }

  ghost predicate FaithfulLog(events: seq<StoredEvent>) {
    forall i | 0 <= i < |events| :: Faithful(events[..i], events[i])
  }

  predicate HasInput(events: seq<StoredEvent>, d: DomainKey) {
    exists e | e in EventsFor(events, d) :: e.replay.Some?
  }

  lemma EventsForSnoc(events: seq<StoredEvent>, e: StoredEvent, d: DomainKey)
    ensures EventsFor(events + [e], d) == if e.domain == d then EventsFor(events, d) + [e] else EventsFor(events, d)
  {
    assert (events + [e])[..|events|] == events;
  }

  lemma FoldSnoc(events: seq<StoredEvent>, e: StoredEvent)
    ensures FoldDomain(events + [e]) == Advanced(FoldDomain(events), e)
  {
    assert (events + [e])[..|events|] == events;
  }

  lemma FaithfulSnoc(events: seq<StoredEvent>, e: StoredEvent)
    ensures FaithfulLog(events + [e]) <==> FaithfulLog(events) && Faithful(events, e)
  {
    hide Faithful;
    var all := events + [e];
    assert all[..|events|] == events;
    if FaithfulLog(all) {
      assert Faithful(all[..|events|], all[|events|]);
      forall i | 0 <= i < |events| ensures Faithful(events[..i], events[i]) {
        assert all[..i] == events[..i] && Faithful(all[..i], all[i]);
      }
    }
    if FaithfulLog(events) && Faithful(events, e) {
      forall i | 0 <= i < |all| ensures Faithful(all[..i], all[i]) {
        if i < |events| { assert all[..i] == events[..i] && Faithful(events[..i], events[i]); }
      }
    }
  }

  // ----- the interleaved pass is one fold per domain -----

  /** The pass holds, for every domain, what folding that domain's events alone gives. */
  ghost predicate HoldsFolds(r: Recovering, events: seq<StoredEvent>) {
    forall d: DomainKey {:trigger FoldDomain(EventsFor(events, d))} ::
      && FoldDomain(EventsFor(events, d)) == Track(DomainOf(r.domains, d), VersionOf(r.versions, d))
      && (d in r.domains <==> HasInput(events, d))
      && (d in r.versions <==> HasInput(events, d))
  }

  /** One event of the pass: accepted exactly when faithful, and then only its own domain's entries move. */
  lemma RecoverEventStep(r: Recovering, events: seq<StoredEvent>, e: StoredEvent)
    requires FoldDomain(EventsFor(events, e.domain))
        == Track(DomainOf(r.domains, e.domain), VersionOf(r.versions, e.domain))
    ensures RecoverEvent(r, e).Ok? <==> Faithful(events, e)
    ensures RecoverEvent(r, e).Ok? ==>
              var t := Advanced(FoldDomain(EventsFor(events, e.domain)), e);
              RecoverEvent(r, e).value
              == if e.replay.None? then r
                 else Recovering(r.domains[e.domain := t.domain], r.versions[e.domain := t.version])
  {
    hide Records, JudgeDomain, JudgmentOf, ContextOf;
  }

  lemma RecoverEventAdvances(r: Recovering, events: seq<StoredEvent>, e: StoredEvent)
    requires HoldsFolds(r, events)
    ensures RecoverEvent(r, e).Ok? <==> Faithful(events, e)
    ensures RecoverEvent(r, e).Ok? ==> HoldsFolds(RecoverEvent(r, e).value, events + [e])
  {
    hide RecoverEvent, Faithful, Rejudge, HasInput, EventsFor, FoldDomain;
    assert FoldDomain(EventsFor(events, e.domain))
      == Track(DomainOf(r.domains, e.domain), VersionOf(r.versions, e.domain));
    RecoverEventStep(r, events, e);
    if RecoverEvent(r, e).Ok? {
      forall d: DomainKey
        ensures FoldDomain(EventsFor(events + [e], d))
             == Track(DomainOf(RecoverEvent(r, e).value.domains, d), VersionOf(RecoverEvent(r, e).value.versions, d))
        ensures d in RecoverEvent(r, e).value.domains <==> HasInput(events + [e], d)
        ensures d in RecoverEvent(r, e).value.versions <==> HasInput(events + [e], d)
      {
        EventsForSnoc(events, e, d);
        FoldSnoc(EventsFor(events, d), e);
        InputSnoc(events, e, d);
        assert FoldDomain(EventsFor(events, d)) == Track(DomainOf(r.domains, d), VersionOf(r.versions, d));
      }
    }
  }

  lemma InputSnoc(events: seq<StoredEvent>, e: StoredEvent, d: DomainKey)
    ensures HasInput(events + [e], d) <==> HasInput(events, d) || (e.domain == d && e.replay.Some?)
  {
    EventsForSnoc(events, e, d);
    var xs := EventsFor(events, d);
    if e.domain == d {
      assert forall x :: x in xs + [e] <==> x in xs || x == e;
      if e.replay.Some? { assert e in xs + [e]; }
    }
  }

  lemma EmptyPass()
    ensures FaithfulLog([])
    ensures HoldsFolds(Recovering(map[], map[]), [])
  {
    forall d: DomainKey
      ensures EventsFor([], d) == [] && !HasInput([], d)
      ensures FoldDomain(EventsFor([], d)) == Track(DomainOf(map[], d), VersionOf(map[], d))
    {
      assert EventsFor([], d) == [];
    }
  }

  /** The interleaved pass succeeds exactly on faithful logs, and then agrees with every per-domain fold. */
  lemma {:induction false} InterleavedPassIsFolds(events: seq<StoredEvent>)
    ensures RecoverLog(events).Ok? <==> FaithfulLog(events)
    ensures RecoverLog(events).Ok? ==> HoldsFolds(RecoverLog(events).value, events)
  {
    hide RecoverEvent, Faithful, FaithfulLog, HoldsFolds;
    if events == [] {
      EmptyPass();
    } else {
      var front, e := events[..|events| - 1], events[|events| - 1];
      InterleavedPassIsFolds(front);
      assert front + [e] == events;
      FaithfulSnoc(front, e);
      if RecoverLog(front).Ok? {
        RecoverEventAdvances(RecoverLog(front).value, front, e);
      }
    }
  }

  /** A log that startup refuses is refused with the same error however it goes on. */
  lemma {:induction false} RecoveryErrorStays(events: seq<StoredEvent>, i: nat)
    requires i <= |events| && RecoverLog(events[..i]).Err?
    ensures RecoverLog(events) == RecoverLog(events[..i])
  {
    hide RecoverEvent;
    if i < |events| {
      var front := events[..|events| - 1];
      assert front[..i] == events[..i];
      RecoveryErrorStays(front, i);
    } else {
      assert events[..i] == events;
    }
  }

  // ----- replay of one domain -----

  /** Event `i` has an input and differs from the fold, or cannot be judged under this policy. */
  predicate Diverges(events: seq<StoredEvent>, i: nat)
    requires i < |events|
  {
    events[i].replay.Some? && !Reproduced(FoldDomain(events[..i]), events[i])
  }

  function Inputs(events: seq<StoredEvent>): nat {
    if events == [] then 0 else Inputs(events[..|events| - 1]) + if events[|events| - 1].replay.Some? then 1 else 0
  }

  ghost predicate LeastDivergence(events: seq<StoredEvent>, i: nat) {
    i < |events| && Diverges(events, i) && forall j | 0 <= j < i :: !Diverges(events, j)
  }

  lemma DivergesInPrefix(events: seq<StoredEvent>, e: StoredEvent, i: nat)
    requires i < |events|
    ensures Diverges(events + [e], i) == Diverges(events, i)
  {
    assert (events + [e])[..i] == events[..i];
  }

  /** While it has not stopped, the scan carries the fold's kernel and version, mismatch or not. */
  lemma {:induction false} ScanFollowsFold(events: seq<StoredEvent>)
    ensures var scan := ScanReplay(events);
      && (!scan.stopped ==>
            && scan.kernel == FoldDomain(events).domain.kernel
            && scan.version == FoldDomain(events).version
            && scan.count == Inputs(events))
      && (scan.stopped ==> scan.first.Some?)
      && (scan.first.None? <==> forall i: nat | i < |events| :: !Diverges(events, i))
      && (scan.first.Some? ==> exists i: nat :: LeastDivergence(events, i) && scan.first.value == events[i].eventId)
  {
    hide Records, Observe, JudgmentOf, ContextOf;
    if events != [] {
      var front, n := events[..|events| - 1], |events| - 1;
      var e := events[n];
      ScanFollowsFold(front);
      assert front + [e] == events;
      forall i: nat | i < n ensures Diverges(events, i) == Diverges(front, i) {
        DivergesInPrefix(front, e, i);
      }
      var scan := ScanReplay(events);
      if ScanReplay(front).first.Some? {
        var i: nat :| LeastDivergence(front, i) && ScanReplay(front).first.value == front[i].eventId;
        assert LeastDivergence(events, i) && scan.first.value == events[i].eventId;
      } else if Diverges(events, n) {
        assert LeastDivergence(events, n) && scan.first.value == events[n].eventId;
      }
    }
  }

  lemma ScanStopsOnlyDivergent(events: seq<StoredEvent>)
    ensures ScanReplay(events).first.None? ==>
              ScanReplay(events).version == FoldDomain(events).version && ScanReplay(events).count == Inputs(events)
  {
    hide ScanReplay, FoldDomain, Inputs, Diverges;
    ScanFollowsFold(events);
  }

  /**
   Replay on any log: the reported first divergence is the least event whose
   policy, kernel id, version or transitions differ from the fold, although the
   loop goes on after a mismatch and breaks off at a policy change.
   */
  lemma ReplayReportsLeastDivergence(s: StoreState, d: DomainKey)
    ensures var r := ReplayTool(s, d); var events := EventsFor(s.events, d);
      && (r.firstDivergent.None? <==> forall i: nat | i < |events| :: !Diverges(events, i))
      && (r.firstDivergent.Some? ==>
            exists i: nat :: LeastDivergence(events, i) && r.firstDivergent.value == events[i].eventId)
      && (r.firstDivergent.None? ==> r.replayedEvents == Inputs(events))
      && (r.replayMatch <==> r.firstDivergent.None? && StateCounter(s.versions, d) == FoldDomain(events).version)
  {
    hide StateVersion, Diverges, ScanReplay, FoldDomain, Inputs, EventsFor, StateCounter;
    var events := EventsFor(s.events, d);
    var scan := ScanReplay(events);
    ScanFollowsFold(events);
    StateVersionInjective(StateCounter(s.versions, d), scan.version);
    ScanStopsOnlyDivergent(events);
    if scan.first.Some? {
      var i: nat :| LeastDivergence(events, i) && scan.first.value == events[i].eventId;
      assert Diverges(events, i);
    }
  }

  /** The first event of another policy, where the scan breaks off, or the end of the log. */
  function FirstForeign(events: seq<StoredEvent>): nat {
    if events == [] then 0
    else
      var k := FirstForeign(events[..|events| - 1]);
      if k < |events| - 1 || IsForeign(events[|events| - 1]) then k else |events|
  }

  predicate IsForeign(e: StoredEvent) {
    e.replay.Some? && !Replayable(e)
  }

  lemma {:induction false} FirstForeignIsFirst(events: seq<StoredEvent>)
    ensures var k := FirstForeign(events);
      && k <= |events|
      && (forall i | 0 <= i < k :: !IsForeign(events[i]))
      && (k < |events| ==> IsForeign(events[k]))
  {
    if events != [] {
      FirstForeignIsFirst(events[..|events| - 1]);
    }
  }

  /** The scan covers the events before the first foreign one and counts that one too, divergent or not. */
  lemma {:induction false} ScanStopsAtForeign(events: seq<StoredEvent>)
    ensures var scan, k := ScanReplay(events), FirstForeign(events);
      && k <= |events|
      && scan.stopped == (k < |events|)
      && scan.count == Inputs(events[..k]) + (if k < |events| then 1 else 0)
      && scan.version == FoldDomain(events[..k]).version
      && scan.kernel == FoldDomain(events[..k]).domain.kernel
  {
    hide Records, Observe, JudgmentOf, ContextOf;
    if events != [] {
      var front, n := events[..|events| - 1], |events| - 1;
      ScanStopsAtForeign(front);
      var k := FirstForeign(front);
      assert events[..k] == front[..k] && front[..n] == front && events[..n] == front && events[..|events|] == events;
    }
  }

  /**
   So on every log, divergent or not, the count and the version that replay reports
   are those of the part it judged.
   */
  lemma ReplayCoversUpToForeign(s: StoreState, d: DomainKey)
    ensures var events := EventsFor(s.events, d); var k := FirstForeign(events); var r := ReplayTool(s, d);
      && k <= |events|
      && (forall i | 0 <= i < k :: !IsForeign(events[i]))
      && (k < |events| ==> IsForeign(events[k]))
      && r.replayedEvents == Inputs(events[..k]) + (if k < |events| then 1 else 0)
      && r.replayedVersion == StateVersion(FoldDomain(events[..k]).version)
      && r.recordedVersion == StateVersion(StateCounter(s.versions, d))
  {
    hide StateVersion, FoldDomain, Inputs, IsForeign;
    FirstForeignIsFirst(EventsFor(s.events, d));
    ScanStopsAtForeign(EventsFor(s.events, d));
  }

  // ----- recovery agrees with replay -----

  ghost predicate NeverDiverges(events: seq<StoredEvent>) {
    forall i: nat | i < |events| :: !Diverges(events, i)
  }

  lemma NeverDivergesSnoc(events: seq<StoredEvent>, e: StoredEvent)
    ensures NeverDiverges(events + [e])
       <==> NeverDiverges(events) && !(e.replay.Some? && !Reproduced(FoldDomain(events), e))
  {
    hide Reproduced;
    var all := events + [e];
    assert all[..|events|] == events;
    forall i: nat | i < |events| ensures Diverges(all, i) == Diverges(events, i) {
      DivergesInPrefix(events, e, i);
    }
    if NeverDiverges(all) {
      assert !Diverges(all, |events|);
    }
  }

  /** Every event of the domain that has an input is faithful at its place in the whole log. */
  ghost predicate FaithfulIn(events: seq<StoredEvent>, d: DomainKey) {
    forall i | 0 <= i < |events| && events[i].domain == d && events[i].replay.Some? :: Faithful(events[..i], events[i])
  }

  lemma FaithfulInSnoc(events: seq<StoredEvent>, e: StoredEvent, d: DomainKey)
    ensures FaithfulIn(events + [e], d)
       <==> FaithfulIn(events, d) && (e.domain == d && e.replay.Some? ==> Faithful(events, e))
  {
    hide Faithful;
    var all := events + [e];
    assert all[..|events|] == events && all[|events|] == e;
    assert forall i | 0 <= i < |events| :: all[..i] == events[..i] && all[i] == events[i];
  }

  /** Divergence inside a domain's own log is divergence at the event's place in the whole log. */
  lemma {:induction false} DomainLogFaithful(events: seq<StoredEvent>, d: DomainKey)
    ensures NeverDiverges(EventsFor(events, d)) <==> FaithfulIn(events, d)
  {
    hide Reproduced, NeverDiverges, FaithfulIn;
    if events == [] {
      assert NeverDiverges([]) && FaithfulIn([], d) by { EmptyIsFaithful(d); }
    } else {
      var front, e := events[..|events| - 1], events[|events| - 1];
      assert front + [e] == events;
      DomainLogFaithful(front, d);
      NeverDivergesSnoc(EventsFor(front, d), e);
      FaithfulInSnoc(front, e, d);
      EventsForSnoc(front, e, d);
    }
  }

  lemma EmptyIsFaithful(d: DomainKey)
    ensures NeverDiverges([]) && FaithfulIn([], d)
  {
  }

  ghost predicate EveryDomainReplays(s: StoreState) {
    forall d: DomainKey | HasInput(s.events, d) :: ReplayTool(s, d).replayMatch
  }

  ghost predicate InputlessAreInert(events: seq<StoredEvent>) {
    forall i | 0 <= i < |events| && events[i].replay.None? :: events[i].transitions == []
  }

  lemma {:induction false} InputsHaveDomain(events: seq<StoredEvent>, i: nat)
    requires i < |events| && events[i].replay.Some?
    ensures HasInput(events, events[i].domain)
  {
    var n := |events| - 1;
    assert events[..n] + [events[n]] == events;
    InputSnoc(events[..n], events[n], events[i].domain);
    if i < n {
      InputsHaveDomain(events[..n], i);
    }
  }

  /** A domain of a faithful log replays exactly when its recorded version is the folded one. */
  lemma FaithfulDomainReplays(s: StoreState, d: DomainKey)
    requires FaithfulLog(s.events)
    ensures ReplayTool(s, d).replayMatch <==> StateCounter(s.versions, d) == FoldDomain(EventsFor(s.events, d)).version
    ensures ReplayTool(s, d).firstDivergent.None? && ReplayTool(s, d).replayedEvents == Inputs(EventsFor(s.events, d))
  {
    hide ReplayTool, Faithful;
    DomainLogFaithful(s.events, d);
    ReplayReportsLeastDivergence(s, d);
  }

  /** What the pass over a faithful log knows about one domain. */
  lemma PassKnows(s: StoreState, d: DomainKey)
    requires FaithfulLog(s.events)
    ensures RecoverLog(s.events).Ok?
    ensures var r := RecoverLog(s.events).value;
      && (d in r.versions <==> HasInput(s.events, d))
      && FoldDomain(EventsFor(s.events, d)) == Track(DomainOf(r.domains, d), VersionOf(r.versions, d))
      && (d in r.versions ==>
            (ReplayTool(s, d).replayMatch
             <==> StateVersion(r.versions[d]) == StateVersion(StateCounter(s.versions, d))))
  {
    hide StateVersion, ReplayTool, RecoverLog, HasInput, FaithfulLog;
    InterleavedPassIsFolds(s.events);
    var r := RecoverLog(s.events).value;
    assert FoldDomain(EventsFor(s.events, d)) == Track(DomainOf(r.domains, d), VersionOf(r.versions, d));
    FaithfulDomainReplays(s, d);
    if d in r.versions {
      StateVersionInjective(r.versions[d], StateCounter(s.versions, d));
    }
  }

  /** An unfaithful log has an event that is not inert without input, or a domain that does not replay. */
  lemma UnfaithfulIsReported(s: StoreState)
    requires EveryDomainReplays(s) && InputlessAreInert(s.events)
    ensures FaithfulLog(s.events)
  {
    hide Reproduced, FoldDomain, EventsFor, HasInput, ReplayTool;
    forall i | 0 <= i < |s.events| ensures Faithful(s.events[..i], s.events[i]) {
      if s.events[i].replay.Some? {
        var d := s.events[i].domain;
        InputsHaveDomain(s.events, i);
        DomainLogFaithful(s.events, d);
        ReplayReportsLeastDivergence(s, d);
      }
    }
  }

  /**
   Startup succeeds exactly when replay matches for every domain that has an
   event with a replay input and every event without one has no transitions.
   */
  lemma RecoveryAgreesWithReplay(s: StoreState)
    ensures Recovers(s) <==> EveryDomainReplays(s) && InputlessAreInert(s.events)
  {
    hide StateVersion, ScanReplay, Reproduced, RecoverLog, HasInput, FoldDomain, EventsFor;
    InterleavedPassIsFolds(s.events);
    if EveryDomainReplays(s) && InputlessAreInert(s.events) {
      UnfaithfulIsReported(s);
    }
    if FaithfulLog(s.events) {
      forall i | 0 <= i < |s.events| && s.events[i].replay.None? ensures s.events[i].transitions == [] {
        assert Faithful(s.events[..i], s.events[i]);
      }
      var r := RecoverLog(s.events).value;
      forall d: DomainKey
        ensures d in r.versions <==> HasInput(s.events, d)
        ensures d in r.versions ==>
                  (ReplayTool(s, d).replayMatch
                   <==> StateVersion(r.versions[d]) == StateVersion(StateCounter(s.versions, d)))
      {
        PassKnows(s, d);
      }
    }
  }

  lemma {:induction false} NothingToReplay(events: seq<StoredEvent>)
    requires forall e | e in events :: e.replay.None?
    ensures ScanReplay(events) == NEW_SCAN
  {
    if events != [] {
      NothingToReplay(events[..|events| - 1]);
    }
  }

  /** A domain without any replay input replays exactly when its recorded version is the initial one. */
  lemma InputlessDomainReplays(s: StoreState, d: DomainKey)
    requires !HasInput(s.events, d)
    ensures ReplayTool(s, d).replayMatch <==> StateCounter(s.versions, d) == 0
  {
    hide StateVersion;
    NothingToReplay(EventsFor(s.events, d));
    StateVersionInjective(StateCounter(s.versions, d), 0);
  }

  /**
   Startup does not look at the recorded version of a domain without replay
   input. So every domain replays exactly when startup succeeds, the log's
   inputless events are inert, and those domains are still at the initial version.
   */
  lemma EveryDomainReplaysExactly(s: StoreState)
    ensures InputlessAreInert(s.events) && (forall d: DomainKey :: ReplayTool(s, d).replayMatch)
       <==> Recovers(s) && (forall d: DomainKey | !HasInput(s.events, d) :: StateCounter(s.versions, d) == 0)
  {
    hide ScanReplay, Recovers, HasInput, EventsFor, StateVersion, StateCounter;
    RecoveryAgreesWithReplay(s);
    forall d: DomainKey | !HasInput(s.events, d)
      ensures ReplayTool(s, d).replayMatch <==> StateCounter(s.versions, d) == 0
    {
      InputlessDomainReplays(s, d);
    }
  }

  /** A store from which startup succeeds although replay reports a mismatch. */
  lemma StartupMissesUnloggedVersion(d: DomainKey)
    ensures var s := EMPTY_STORE.(versions := [DomainVersion(d, 1)]);
      Recovers(s) && !ReplayTool(s, d).replayMatch
  {
    var s := EMPTY_STORE.(versions := [DomainVersion(d, 1)]);
    assert EventsFor(s.events, d) == [];
    InputlessDomainReplays(s, d);
  }

  /** A recovered runtime holds, in every domain, the fold of that domain's own log and the recorded version. */
  lemma RecoveredHoldsFolds(s: StoreState, d: DomainKey)
    requires Recovers(s)
    ensures DomainOf(Recovered(s).domains, d) == FoldDomain(EventsFor(s.events, d)).domain
    ensures HasInput(s.events, d) ==> StateCounter(s.versions, d) == FoldDomain(EventsFor(s.events, d)).version
  {
    hide StateVersion, RecoverLog, ReplayTool, HasInput, FaithfulLog;
    InterleavedPassIsFolds(s.events);
    PassKnows(s, d);
    var r := RecoverLog(s.events).value;
    if d in r.versions {
      StateVersionInjective(r.versions[d], StateCounter(s.versions, d));
    }
  }
}
