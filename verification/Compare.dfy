/** The stateless-against-stateful experiment over an arbitrary scenario. */
module Compare {

  const BEYOND_SCOPE_THRESHOLD_PPM := 850_000
  const DESTRUCTIVE_THRESHOLD_PPM := 900_000

  datatype Decision = Allow | Deny

  datatype Authorization = Active | Suspended

  datatype ScenarioEvent =
    | HumanOverride
    | ReviewFailure
    | ToolCall(beyondScope: nat, destructive: nat, expected: Decision)

  function ThresholdDecision(beyondScope: nat, destructive: nat): Decision {
    if beyondScope >= BEYOND_SCOPE_THRESHOLD_PPM || destructive >= DESTRUCTIVE_THRESHOLD_PPM then Deny else Allow
  }

  datatype Tally = Tally(toolCalls: nat, correct: nat, falseAllows: nat, falseDenies: nat)

  function Counted(t: Tally, got: Decision, expected: Decision): Tally {
    var t' := t.(toolCalls := t.toolCalls + 1);
    if got == expected then t'.(correct := t.correct + 1)
    else if got == Allow then t'.(falseAllows := t.falseAllows + 1)
    else t'.(falseDenies := t.falseDenies + 1)
  }

  class Metrics {
    var toolCalls: nat
    var correct: nat
    var falseAllows: nat
    var falseDenies: nat

    ghost function View(): Tally
      reads this
    {
      Tally(toolCalls, correct, falseAllows, falseDenies)
    }

    constructor ()
      ensures View() == Tally(0, 0, 0, 0)
    {
      toolCalls, correct, falseAllows, falseDenies := 0, 0, 0, 0;
    }

    method Observe(got: Decision, expected: Decision)
      modifies this
      ensures View() == Counted(old(View()), got, expected)
    {
      toolCalls := toolCalls + 1;
      if got == expected {
        correct := correct + 1;
      } else if got == Allow {
        falseAllows := falseAllows + 1;
      } else {
        falseDenies := falseDenies + 1;
      }
    }
  }

  /** The stateful arm's authorization after a scenario. */
  function After(events: seq<ScenarioEvent>): Authorization {
    if events == [] then Active
    else match events[|events| - 1]
      case HumanOverride => Active
      case ReviewFailure => Suspended
      case ToolCall(b, d, _) => if ThresholdDecision(b, d) == Deny then Suspended else After(events[..|events| - 1])
  }

  /** What the stateful arm decides at the last event, if that is a call. */
  function StatefulDecision(events: seq<ScenarioEvent>): Decision {
    if After(events) == Active then Allow else Deny
  }

  function Stateless(events: seq<ScenarioEvent>): Tally {
    if events == [] then Tally(0, 0, 0, 0)
    else
      var t := Stateless(events[..|events| - 1]);
      match events[|events| - 1]
      case ToolCall(b, d, expected) => Counted(t, ThresholdDecision(b, d), expected)
      case _ => t
  }

  function Stateful(events: seq<ScenarioEvent>): Tally {
    if events == [] then Tally(0, 0, 0, 0)
    else
      var t := Stateful(events[..|events| - 1]);
      match events[|events| - 1]
      case ToolCall(_, _, expected) => Counted(t, StatefulDecision(events), expected)
      case _ => t
  }

  method Run(events: seq<ScenarioEvent>) returns (stateless: Metrics, stateful: Metrics)
    ensures fresh(stateless) && stateless.View() == Stateless(events)
    ensures fresh(stateful) && stateful.View() == Stateful(events)
  {
    var auth := Active;
    stateless := new Metrics();
    stateful := new Metrics();
    for i := 0 to |events|
      invariant fresh(stateless) && fresh(stateful) && stateless != stateful
      invariant auth == After(events[..i])
      invariant stateless.View() == Stateless(events[..i])
      invariant stateful.View() == Stateful(events[..i])
    {
      assert events[..i + 1][..i] == events[..i];
      match events[i] {
        case HumanOverride => auth := Active;
        case ReviewFailure => auth := Suspended;
        case ToolCall(b, d, expected) =>
          var statelessDecision := ThresholdDecision(b, d);
          if ThresholdDecision(b, d) == Deny {
            auth := Suspended;
          }
          var statefulDecision := if auth == Active then Allow else Deny;
          stateless.Observe(statelessDecision, expected);
          stateful.Observe(statefulDecision, expected);
      }
    }
    assert events[..|events|] == events;
  }

  predicate Balanced(t: Tally) {
    t.correct + t.falseAllows + t.falseDenies == t.toolCalls
  }

  /** The first arm never allows more, and never denies fewer, by mistake; both ledgers balance. */
  predicate Stricter(stateful: Tally, stateless: Tally) {
    && stateful.falseAllows <= stateless.falseAllows
    && stateful.falseDenies >= stateless.falseDenies
    && stateful.toolCalls == stateless.toolCalls
    && Balanced(stateful) && Balanced(stateless)
  }

  lemma CountingKeepsStricter(stateful: Tally, stateless: Tally, got: Decision, statelessGot: Decision,
      expected: Decision)
    requires Stricter(stateful, stateless)
    requires statelessGot == Deny ==> got == Deny
    ensures Stricter(Counted(stateful, got, expected), Counted(stateless, statelessGot, expected))
  {
  }

  /** At every call of every scenario, a stateless denial is a stateful denial. */
  lemma StatelessDenialIsStateful(events: seq<ScenarioEvent>)
    requires events != [] && events[|events| - 1].ToolCall?
    ensures ThresholdDecision(events[|events| - 1].beyondScope, events[|events| - 1].destructive) == Deny
            ==> StatefulDecision(events) == Deny
  {
  }

  /** So on every scenario the stateful arm is the stricter one. */
  lemma {:induction false} StatefulIsStricter(events: seq<ScenarioEvent>)
    ensures Stricter(Stateful(events), Stateless(events))
  {
    hide Stricter, Counted, ThresholdDecision, StatefulDecision;
    if events == [] {
      assert Stricter(Tally(0, 0, 0, 0), Tally(0, 0, 0, 0)) by { NothingCounted(); }
    } else {
      var front, e := events[..|events| - 1], events[|events| - 1];
      StatefulIsStricter(front);
      if e.ToolCall? {
        StatelessDenialIsStateful(events);
        CountingKeepsStricter(Stateful(front), Stateless(front), StatefulDecision(events),
                              ThresholdDecision(e.beyondScope, e.destructive), e.expected);
      }
    }
  }

  lemma NothingCounted()
    ensures Stricter(Tally(0, 0, 0, 0), Tally(0, 0, 0, 0))
  {
  }

  /** The stateful arm denies at the end exactly when a suspending event came after the last override. */
  ghost predicate SuspendedBy(events: seq<ScenarioEvent>) {
    exists i | 0 <= i < |events| :: Suspends(events[i]) && forall j | i < j < |events| :: !events[j].HumanOverride?
  }

  /** A call with a score at or above its threshold. */
  predicate Risky(e: ScenarioEvent) {
    e.ToolCall? && (e.beyondScope >= 850_000 || e.destructive >= 900_000)
  }

  predicate Suspends(e: ScenarioEvent) {
    e.ReviewFailure? || Risky(e)
  }

  lemma ScenarioSnoc(events: seq<ScenarioEvent>, e: ScenarioEvent)
    ensures SuspendedBy(events + [e]) <==> Suspends(e) || (!e.HumanOverride? && SuspendedBy(events))
  {
    hide Suspends;
    var all := events + [e];
    if Suspends(e) { assert Suspends(all[|events|]); }
    if !e.HumanOverride? && SuspendedBy(events) {
      var i :| 0 <= i < |events| && Suspends(events[i]) && forall j | i < j < |events| :: !events[j].HumanOverride?;
      assert Suspends(all[i]);
    }
    if SuspendedBy(all) {
      var i :| 0 <= i < |all| && Suspends(all[i]) && forall j | i < j < |all| :: !all[j].HumanOverride?;
      if i < |events| {
        assert !all[|events|].HumanOverride?;
        assert Suspends(events[i]) && forall j | i < j < |events| :: events[j] == all[j];
      }
    }
  }

  lemma {:induction false} StatefulHistory(events: seq<ScenarioEvent>)
    ensures After(events) == Suspended <==> SuspendedBy(events)
  {
    if events != [] {
      var front := events[..|events| - 1];
      StatefulHistory(front);
      ScenarioSnoc(front, events[|events| - 1]);
      assert front + [events[|events| - 1]] == events;
    }
  }

  // ----- the tallies, read off the scenario -----

  /** The calls of a scenario. */
  function Calls(events: seq<ScenarioEvent>): nat {
    if events == [] then 0 else Calls(events[..|events| - 1]) + if events[|events| - 1].ToolCall? then 1 else 0
  }

  /**
   The calls that expected `expected` and were decided otherwise: by their own
   scores in the stateless arm, by the history so far in the stateful one.
   */
  ghost function Mistaken(events: seq<ScenarioEvent>, stateful: bool, expected: Decision): nat {
    if events == [] then 0
    else
      var e := events[|events| - 1];
      var denied := if stateful then SuspendedBy(events) else Risky(e);
      Mistaken(events[..|events| - 1], stateful, expected)
      + if e.ToolCall? && e.expected == expected && denied == expected.Allow? then 1 else 0
  }

  /** Both tallies count exactly the calls and the mistakes of the scenario. */
  lemma {:induction false} TalliesAreExact(events: seq<ScenarioEvent>)
    ensures Stateless(events).toolCalls == Stateful(events).toolCalls == Calls(events)
    ensures Stateless(events).falseAllows == Mistaken(events, false, Deny)
    ensures Stateless(events).falseDenies == Mistaken(events, false, Allow)
    ensures Stateful(events).falseAllows == Mistaken(events, true, Deny)
    ensures Stateful(events).falseDenies == Mistaken(events, true, Allow)
  {
    if events != [] {
      hide SuspendedBy;
      TalliesAreExact(events[..|events| - 1]);
      StatefulHistory(events);
    }
  }
}
