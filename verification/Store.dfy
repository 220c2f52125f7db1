/**
 The in-memory event store: three append-only logs with sequential ids and an
 association list of per-domain state versions. `StoreState` and its functions
 are the specification; the class `MemoryEventStore` updates the same fields in
 place. A snapshot of the store on disk is a `StoreState`.
 */
module Store {
  import opened Wrappers
  import opened Rendering
  import opened Admission

  datatype DomainKey = DomainKey(subject: string, scope: string)

  /** What a stored observation keeps so that it can be judged again. */
  datatype ReplayInput = ReplayInput(
    provider: string, task: string, action: string, intent: string,
    beyondScope: nat, destructive: nat,
    reliability: nat, corroborators: nat, now: nat, expires: nat,
    policyVersion: string)
  {
    predicate InRange() {
      beyondScope <= PPM && destructive <= PPM && reliability <= PPM && now <= expires
    }
  }

  /** Replaying an input under the current policy panics outside these ranges, so such inputs are no values here. */
  type ReplayObservation = r: ReplayInput | r.policyVersion == POLICY_VERSION ==> r.InRange()
    witness ReplayInput("", "", "", "", 0, 0, 0, 0, 0, 0, "")

  datatype StoredEvent = StoredEvent(
    eventId: string,
    kernelEventId: string,
    domain: DomainKey,
    action: string,
    stateVersion: string,
    transitions: seq<string>,
    provenance: seq<string>,
    replay: Option<ReplayObservation>)

  datatype StoredDecision = StoredDecision(
    decisionId: string,
    domain: DomainKey,
    action: string,
    verdict: string,
    reasonCode: string,
    governingRelation: Option<string>,
    stateVersion: string,
    provenance: seq<string>)

  datatype StoredOutcome = StoredOutcome(
    outcomeId: string,
    decisionId: string,
    domain: DomainKey,
    outcome: string,
    detail: Option<string>,
    stateVersion: string)

  datatype DomainVersion = DomainVersion(domain: DomainKey, version: nat)

  datatype StoreState = StoreState(
    events: seq<StoredEvent>,
    decisions: seq<StoredDecision>,
    outcomes: seq<StoredOutcome>,
    versions: seq<DomainVersion>,
    eventCounter: nat,
    decisionCounter: nat,
    outcomeCounter: nat)

  /** The step of a persist that failed; the message the store latches. */
  datatype PersistError = DirectoryFailed | EncodeFailed | WriteFailed | RenameFailed

  const EMPTY_STORE := StoreState([], [], [], [], 0, 0, 0)

  function StateVersion(n: nat): string { Id("state", n, 6) }
  function EventId(n: nat): string { Id("event", n, 6) }
  function DecisionId(n: nat): string { Id("decision", n, 6) }
  function OutcomeId(n: nat): string { Id("outcome", n, 6) }

  lemma StateVersionInjective(m: nat, n: nat)
    ensures StateVersion(m) == StateVersion(n) <==> m == n
  {
    IdInjective("state", m, n, 6);
  }

  lemma DecisionIdInjective(m: nat, n: nat)
    ensures DecisionId(m) == DecisionId(n) <==> m == n
  {
    IdInjective("decision", m, n, 6);
  }

  // ----- state versions -----

  function StateCounter(versions: seq<DomainVersion>, domain: DomainKey): nat {
    if versions == [] then 0
    else if versions[0].domain == domain then versions[0].version
    else StateCounter(versions[1..], domain)
  }

  function Advance(versions: seq<DomainVersion>, domain: DomainKey): seq<DomainVersion> {
    if versions == [] then [DomainVersion(domain, 1)]
    else if versions[0].domain == domain then [DomainVersion(domain, versions[0].version + 1)] + versions[1..]
    else [versions[0]] + Advance(versions[1..], domain)
  }

  ghost predicate UniqueDomains(versions: seq<DomainVersion>) {
    forall i, j | 0 <= i < j < |versions| :: versions[i].domain != versions[j].domain
  }

  /** Advancing moves exactly one key of the map the list represents, by exactly one. */
  lemma {:induction false} AdvanceMovesOneKey(versions: seq<DomainVersion>, domain: DomainKey, other: DomainKey)
    ensures StateCounter(Advance(versions, domain), other) == StateCounter(versions, other)
        + (if other == domain then 1 else 0)
  {
    if versions != [] && versions[0].domain != domain {
      AdvanceMovesOneKey(versions[1..], domain, other);
      assert Advance(versions, domain)[1..] == Advance(versions[1..], domain);
    } else if versions != [] {
      assert Advance(versions, domain)[1..] == versions[1..];
    }
  }

  /** A domain keeps its one entry, a new domain gets one, and no other entry appears. */
  lemma {:induction false} AdvanceKeepsUnique(versions: seq<DomainVersion>, domain: DomainKey)
    requires UniqueDomains(versions)
    ensures UniqueDomains(Advance(versions, domain))
    ensures forall e | e in Advance(versions, domain) :: e.domain == domain || e in versions
  {
    if versions != [] && versions[0].domain != domain {
      AdvanceKeepsUnique(versions[1..], domain);
      var rest := Advance(versions[1..], domain);
      forall j | 0 <= j < |rest| ensures rest[j].domain != versions[0].domain {
        assert rest[j] in rest;
      }
    }
  }

  /** Without duplicate keys the find-first lookup is exact: the list is the map. */
  lemma {:induction false} LookupIsExact(versions: seq<DomainVersion>, domain: DomainKey)
    requires UniqueDomains(versions)
    ensures forall i | 0 <= i < |versions| && versions[i].domain == domain ::
        StateCounter(versions, domain) == versions[i].version
    ensures (forall i | 0 <= i < |versions| :: versions[i].domain != domain) ==> StateCounter(versions, domain) == 0
  {
    if versions != [] && versions[0].domain != domain {
      LookupIsExact(versions[1..], domain);
      forall i | 0 <= i < |versions| && versions[i].domain == domain
        ensures StateCounter(versions, domain) == versions[i].version
      {
        assert versions[i] == versions[1..][i - 1];
      }
    }
  }

  /** Advancing in place at the first entry of the domain, or appending when there is none. */
  lemma {:induction false} AdvanceAt(versions: seq<DomainVersion>, domain: DomainKey, i: nat)
    requires i <= |versions|
    requires forall j | 0 <= j < i :: versions[j].domain != domain
    requires i < |versions| ==> versions[i].domain == domain
    ensures var n := (if i < |versions| then versions[i].version else 0) + 1;
      && StateCounter(Advance(versions, domain), domain) == n
      && Advance(versions, domain)
         == if i < |versions| then versions[i := DomainVersion(domain, n)] else versions + [DomainVersion(domain, n)]
  {
    if i > 0 {
      AdvanceAt(versions[1..], domain, i - 1);
      assert Advance(versions, domain)[1..] == Advance(versions[1..], domain);
    }
  }

  // ----- lookups -----

  function FindDecision(decisions: seq<StoredDecision>, id: string): Option<StoredDecision> {
    if decisions == [] then None
    else if decisions[0].decisionId == id then Some(decisions[0])
    else FindDecision(decisions[1..], id)
  }

  function EventsFor(events: seq<StoredEvent>, domain: DomainKey): seq<StoredEvent> {
    if events == [] then []
    else
      EventsFor(events[..|events| - 1], domain)
      + if events[|events| - 1].domain == domain then [events[|events| - 1]] else []
  }

  /** Decision ids are n + 1, n + 2, n + 3, ... in rendered form. */
  ghost predicate NumberedFrom(decisions: seq<StoredDecision>, n: nat) {
    forall i | 0 <= i < |decisions| :: decisions[i].decisionId == DecisionId(n + i + 1)
  }

  ghost predicate SequentialDecisions(decisions: seq<StoredDecision>) {
    NumberedFrom(decisions, 0)
  }

  lemma {:induction false} FindsFirst(decisions: seq<StoredDecision>, id: string, k: nat)
    requires k < |decisions| && decisions[k].decisionId == id
    requires forall i | 0 <= i < k :: decisions[i].decisionId != id
    ensures FindDecision(decisions, id) == Some(decisions[k])
  {
    if k > 0 {
      FindsFirst(decisions[1..], id, k - 1);
    }
  }

  lemma {:induction false} FindsNothing(decisions: seq<StoredDecision>, id: string)
    requires forall i | 0 <= i < |decisions| :: decisions[i].decisionId != id
    ensures FindDecision(decisions, id) == None
  {
    if decisions != [] {
      FindsNothing(decisions[1..], id);
    }
  }

  lemma FindNumbered(decisions: seq<StoredDecision>, n: nat, id: string)
    requires NumberedFrom(decisions, n)
    ensures forall k | 0 <= k < |decisions| && decisions[k].decisionId == id ::
              FindDecision(decisions, id) == Some(decisions[k])
    ensures FindDecision(decisions, id).Some? ==> exists k | 0 <= k < |decisions| :: decisions[k].decisionId == id
  {
    forall k | 0 <= k < |decisions| && decisions[k].decisionId == id
      ensures FindDecision(decisions, id) == Some(decisions[k])
    {
      forall i | 0 <= i < k ensures decisions[i].decisionId != id {
        DecisionIdInjective(n + i + 1, n + k + 1);
      }
      FindsFirst(decisions, id, k);
    }
    if forall i | 0 <= i < |decisions| :: decisions[i].decisionId != id {
      FindsNothing(decisions, id);
    }
  }

  /** Find-first by rendered id returns the one decision that has the id, or nothing when none has it. */
  lemma FindIsExact(decisions: seq<StoredDecision>, id: string)
    requires SequentialDecisions(decisions)
    ensures forall k | 0 <= k < |decisions| && decisions[k].decisionId == id ::
              FindDecision(decisions, id) == Some(decisions[k])
    ensures FindDecision(decisions, id).Some? ==> exists k | 0 <= k < |decisions| :: decisions[k].decisionId == id
  {
    FindNumbered(decisions, 0, id);
  }

  /** What is appended is found only under ids that were not there before. */
  lemma {:induction false} FindAppended(before: seq<StoredDecision>, more: seq<StoredDecision>, id: string)
    ensures FindDecision(before + more, id)
         == if FindDecision(before, id).Some? then FindDecision(before, id) else FindDecision(more, id)
  {
    if before == [] {
      assert before + more == more;
    } else {
      assert (before + more)[1..] == before[1..] + more;
      FindAppended(before[1..], more, id);
    }
  }

  // ----- the mutable store -----

  class MemoryEventStore {
    var events: seq<StoredEvent>
    var decisions: seq<StoredDecision>
    var outcomes: seq<StoredOutcome>
    var versions: seq<DomainVersion>
    var eventCounter: nat
    var decisionCounter: nat
    var outcomeCounter: nat

    ghost function View(): StoreState
      reads this
    {
      StoreState(events, decisions, outcomes, versions, eventCounter, decisionCounter, outcomeCounter)
    }

    constructor ()
      ensures View() == EMPTY_STORE
    {
      events, decisions, outcomes, versions := [], [], [], [];
      eventCounter, decisionCounter, outcomeCounter := 0, 0, 0;
    }

    /** Decodes a snapshot. */
    constructor FromSnapshot(s: StoreState)
      ensures View() == s
    {
      events, decisions, outcomes, versions := s.events, s.decisions, s.outcomes, s.versions;
      eventCounter, decisionCounter, outcomeCounter := s.eventCounter, s.decisionCounter, s.outcomeCounter;
    }

    /** Encodes a snapshot. */
    function Snapshot(): (s: StoreState)
      reads this
      ensures s == View()
    {
      StoreState(events, decisions, outcomes, versions, eventCounter, decisionCounter, outcomeCounter)
    }

    function CurrentStateVersion(domain: DomainKey): string
      reads this
    {
      StateVersion(StateCounter(versions, domain))
    }

    method AdvanceStateVersion(domain: DomainKey) returns (version: string)
      modifies this`versions
      ensures versions == Advance(old(versions), domain)
      ensures version == StateVersion(StateCounter(versions, domain))
    {
      hide StateVersion;
      var i := 0;
      while i < |versions| && versions[i].domain != domain
        invariant 0 <= i <= |versions| && versions == old(versions)
        invariant forall j | 0 <= j < i :: versions[j].domain != domain
      {
        i := i + 1;
      }
      AdvanceAt(versions, domain, i);
      if i < |versions| {
        var entry := versions[i].(version := versions[i].version + 1);
        versions := versions[i := entry];
        version := StateVersion(entry.version);
      } else {
        versions := versions + [DomainVersion(domain, 1)];
        version := StateVersion(1);
      }
    }

    method NextEventId() returns (id: string)
      modifies this`eventCounter
      ensures eventCounter == old(eventCounter) + 1 && id == EventId(eventCounter)
    {
      eventCounter := eventCounter + 1;
      id := EventId(eventCounter);
    }

    method RecordEvent(event: StoredEvent)
      modifies this`events
      ensures events == old(events) + [event]
    {
      events := events + [event];
    }

    function EventsForDomain(domain: DomainKey): seq<StoredEvent>
      reads this
    {
      EventsFor(events, domain)
    }

    method NextDecisionId() returns (id: string)
      modifies this`decisionCounter
      ensures decisionCounter == old(decisionCounter) + 1 && id == DecisionId(decisionCounter)
    {
      decisionCounter := decisionCounter + 1;
      id := DecisionId(decisionCounter);
    }

    method RecordDecision(decision: StoredDecision)
      modifies this`decisions
      ensures decisions == old(decisions) + [decision]
    {
      decisions := decisions + [decision];
    }

    method NextOutcomeId() returns (id: string)
      modifies this`outcomeCounter
      ensures outcomeCounter == old(outcomeCounter) + 1 && id == OutcomeId(outcomeCounter)
    {
      outcomeCounter := outcomeCounter + 1;
      id := OutcomeId(outcomeCounter);
    }

    method RecordOutcome(outcome: StoredOutcome)
      modifies this`outcomes
      ensures outcomes == old(outcomes) + [outcome]
    {
      outcomes := outcomes + [outcome];
    }
  }
}
