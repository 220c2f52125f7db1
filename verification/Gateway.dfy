/**
 The gateway: tool ownership fixed at startup, and gated calls as protocol steps
 that interleave freely with each other, with other clients of the control
 plane, and with control-plane and upstream failures.
 */
module Gateway {
  import opened Wrappers
  import opened GovernanceKernel
  import opened KernelHistory
  import opened Store
  import opened Enforcement
  import opened Runtime
  import opened Reachable
  import opened Verdicts
  import opened Explanations
  import opened RuntimeBinding

  // ----- startup: who owns which tool -----

  /** A configured upstream: whether spawning and initializing it succeeds, and what listing its tools answers. */
  datatype Upstream = Upstream(starts: bool, listed: Option<seq<string>>, controlPlane: bool)
  {
    function Tools(): seq<string> {
      if listed.Some? then listed.value else []
    }
  }

  datatype Table = Table(owners: map<string, nat>, catalog: seq<string>, controlPlane: Option<nat>)

  datatype StartError = NotStarted(upstream: nat) | NotListed(upstream: nat) | Collision(tool: string)

  function Catalog(upstreams: seq<Upstream>): seq<string> {
    if upstreams == [] then [] else Catalog(upstreams[..|upstreams| - 1]) + upstreams[|upstreams| - 1].Tools()
  }

  ghost predicate Distinct(names: seq<string>) {
    forall i, j | 0 <= i < j < |names| :: names[i] != names[j]
  }

  /** The owner of a tool is the upstream that lists it, and nothing else has an owner. */
  ghost predicate OwnedBy(owners: map<string, nat>, upstreams: seq<Upstream>) {
    && (forall t | t in owners :: owners[t] < |upstreams| && t in upstreams[owners[t]].Tools())
    && (forall i, t | 0 <= i < |upstreams| && t in upstreams[i].Tools() :: t in owners && owners[t] == i)
  }

  /** Claims one upstream's tools; stops at the first name that already has an owner. */
  method Claim(owners: map<string, nat>, catalog: seq<string>, tools: seq<string>, idx: nat)
    returns (collision: Option<string>, owners': map<string, nat>, catalog': seq<string>)
    requires Distinct(catalog)
    requires forall t :: t in owners <==> t in catalog
    ensures collision.None? <==> Distinct(catalog + tools)
    ensures collision.Some? ==> collision.value in tools
    ensures collision.None? ==>
              && catalog' == catalog + tools
              && (forall t :: t in owners' <==> t in catalog')
              && (forall t | t in owners :: owners'[t] == owners[t])
              && (forall t | t in tools :: owners'[t] == idx)
  {
    collision, owners', catalog' := None, owners, catalog;
    for i := 0 to |tools|
      invariant catalog' == catalog + tools[..i]
      invariant Distinct(catalog')
      invariant forall t :: t in owners' <==> t in catalog'
      invariant forall t | t in owners :: owners'[t] == owners[t]
      invariant forall t | t in tools[..i] :: owners'[t] == idx
    {
      var name := tools[i];
      if name in owners' {
        var k :| 0 <= k < |catalog'| && catalog'[k] == name;
        assert (catalog + tools)[k] == (catalog + tools)[|catalog| + i];
        return Some(name), owners', catalog';
      }
      owners' := owners'[name := idx];
      catalog' := catalog' + [name];
      assert tools[..i + 1] == tools[..i] + [name];
    }
    assert tools[..|tools|] == tools;
  }

  ghost predicate AllStart(upstreams: seq<Upstream>) {
    forall i | 0 <= i < |upstreams| :: upstreams[i].starts
  }

  ghost predicate AllList(upstreams: seq<Upstream>) {
    forall i | 0 <= i < |upstreams| :: upstreams[i].listed.Some?
  }

  /**
   Why startup refuses: the first failure, of starting every upstream in order, and
   then of listing and claiming in order.
   */
  ghost predicate Refused(upstreams: seq<Upstream>, error: StartError) {
    match error
    case NotStarted(i) => i < |upstreams| && AllStart(upstreams[..i]) && !upstreams[i].starts
    case NotListed(i) =>
      && AllStart(upstreams)
      && i < |upstreams| && AllList(upstreams[..i]) && Distinct(Catalog(upstreams[..i]))
      && upstreams[i].listed.None?
    case Collision(tool) =>
      && AllStart(upstreams)
      && exists i | 0 <= i < |upstreams| ::
           && AllList(upstreams[..i + 1]) && Distinct(Catalog(upstreams[..i])) && !Distinct(Catalog(upstreams[..i + 1]))
           && tool in upstreams[i].Tools()
  }

  /**
   Startup succeeds exactly when every upstream starts and lists its tools and no
   name is exposed twice, by two upstreams or by one; otherwise it refuses with
   the first failure.
   */
  method Start(upstreams: seq<Upstream>) returns (r: Result<Table, StartError>)
    ensures r.Ok? <==> AllStart(upstreams) && AllList(upstreams) && Distinct(Catalog(upstreams))
    ensures r.Err? ==> Refused(upstreams, r.error)
    ensures r.Ok? ==>
              && r.value.catalog == Catalog(upstreams)
              && OwnedBy(r.value.owners, upstreams)
              && (r.value.controlPlane.Some? <==> exists i | 0 <= i < |upstreams| :: upstreams[i].controlPlane)
              && (r.value.controlPlane.Some? ==>
                    && r.value.controlPlane.value < |upstreams|
                    && upstreams[r.value.controlPlane.value].controlPlane
                    && forall j | r.value.controlPlane.value < j < |upstreams| :: !upstreams[j].controlPlane)
  {
    hide Distinct, OwnedBy, AllStart, AllList, Refused;
    var launched := Launch(upstreams);
    if launched.Err? {
      return Err(launched.error);
    }
    var claimed := ClaimAll(upstreams);
    if claimed.Err? {
      return Err(claimed.error);
    }
    var (owners, catalog) := claimed.value;
    r := Ok(Table(owners, catalog, launched.value));
  }

  /** Lists and claims the tools of every upstream in order. */
  method ClaimAll(upstreams: seq<Upstream>) returns (r: Result<(map<string, nat>, seq<string>), StartError>)
    requires AllStart(upstreams)
    ensures r.Ok? <==> AllList(upstreams) && Distinct(Catalog(upstreams))
    ensures r.Err? ==> Refused(upstreams, r.error)
    ensures r.Ok? ==> r.value.1 == Catalog(upstreams) && OwnedBy(r.value.0, upstreams)
  {
    var owners: map<string, nat>, catalog: seq<string> := map[], [];
    assert Distinct(catalog) && AllList(upstreams[..0]) && OwnedBy(owners, upstreams[..0]);
    hide Distinct, OwnedBy, AllStart, AllList, Refused;
    for i := 0 to |upstreams|
      invariant catalog == Catalog(upstreams[..i]) && Distinct(catalog) && AllList(upstreams[..i])
      invariant forall t :: t in owners <==> t in catalog
      invariant OwnedBy(owners, upstreams[..i])
    {
      assert upstreams[..i + 1][..i] == upstreams[..i];
      ListsNext(upstreams, i);
      if upstreams[i].listed.None? {
        RefusedUnlisted(upstreams, i);
        return Err(NotListed(i));
      }
      var collision, owners';
      collision, owners', catalog := Claim(owners, catalog, upstreams[i].Tools(), i);
      if collision.Some? {
        CatalogKeepsCollisions(upstreams, i + 1);
        RefusedCollision(upstreams, i, collision.value);
        return Err(Collision(collision.value));
      }
      ClaimExtendsOwners(owners, owners', upstreams, i);
      owners := owners';
    }
    assert upstreams[..|upstreams|] == upstreams;
    r := Ok((owners, catalog));
  }

  lemma ListsNext(upstreams: seq<Upstream>, i: nat)
    requires i < |upstreams|
    ensures AllList(upstreams[..i + 1]) <==> AllList(upstreams[..i]) && upstreams[i].listed.Some?
    ensures AllList(upstreams) ==> upstreams[i].listed.Some?
  {
    assert upstreams[..i + 1] == upstreams[..i] + [upstreams[i]];
  }

  lemma RefusedUnlisted(upstreams: seq<Upstream>, i: nat)
    requires AllStart(upstreams) && i < |upstreams| && AllList(upstreams[..i]) && Distinct(Catalog(upstreams[..i]))
    requires upstreams[i].listed.None?
    ensures Refused(upstreams, NotListed(i))
  {
  }

  lemma RefusedCollision(upstreams: seq<Upstream>, i: nat, tool: string)
    requires AllStart(upstreams) && i < |upstreams| && AllList(upstreams[..i + 1])
    requires Distinct(Catalog(upstreams[..i])) && !Distinct(Catalog(upstreams[..i + 1]))
    requires tool in upstreams[i].Tools()
    ensures Refused(upstreams, Collision(tool))
  {
    hide Distinct;
  }

  lemma ClaimExtendsOwners(owners: map<string, nat>, owners': map<string, nat>, upstreams: seq<Upstream>, i: nat)
    requires i < |upstreams| && OwnedBy(owners, upstreams[..i])
    requires forall t :: t in owners' <==> t in owners || t in upstreams[i].Tools()
    requires forall t | t in owners :: owners'[t] == owners[t]
    requires forall t | t in upstreams[i].Tools() :: owners'[t] == i
    ensures OwnedBy(owners', upstreams[..i + 1])
  {
    var before, after := upstreams[..i], upstreams[..i + 1];
    forall t | t in owners' ensures owners'[t] < |after| && t in after[owners'[t]].Tools() {
      if t in owners { assert before[owners[t]] == after[owners[t]]; }
    }
    forall j, t | 0 <= j < |after| && t in after[j].Tools() ensures t in owners' && owners'[t] == j {
      if j < i { assert before[j] == after[j]; }
    }
  }

  /** Spawns and initializes every upstream in order, and notes which one is the control plane. */
  method Launch(upstreams: seq<Upstream>) returns (r: Result<Option<nat>, StartError>)
    ensures r.Ok? <==> AllStart(upstreams)
    ensures r.Err? ==> r.error.NotStarted? && Refused(upstreams, r.error)
    ensures r.Ok? ==>
              && (r.value.Some? <==> exists i | 0 <= i < |upstreams| :: upstreams[i].controlPlane)
              && (r.value.Some? ==>
                    && r.value.value < |upstreams| && upstreams[r.value.value].controlPlane
                    && forall j | r.value.value < j < |upstreams| :: !upstreams[j].controlPlane)
  {
    var controlPlane: Option<nat> := None;
    for i := 0 to |upstreams|
      invariant AllStart(upstreams[..i])
      invariant controlPlane.Some? <==> exists j | 0 <= j < i :: upstreams[j].controlPlane
      invariant controlPlane.Some? ==>
                  && controlPlane.value < i && upstreams[controlPlane.value].controlPlane
                  && forall j | controlPlane.value < j < i :: !upstreams[j].controlPlane
    {
      if !upstreams[i].starts {
        return Err(NotStarted(i));
      }
      if upstreams[i].controlPlane {
        controlPlane := Some(i);
      }
      assert upstreams[..i + 1] == upstreams[..i] + [upstreams[i]];
    }
    assert upstreams[..|upstreams|] == upstreams;
    r := Ok(controlPlane);
  }

  lemma {:induction false} CatalogKeepsCollisions(upstreams: seq<Upstream>, i: nat)
    requires i <= |upstreams| && !Distinct(Catalog(upstreams[..i]))
    ensures !Distinct(Catalog(upstreams))
  {
    if i < |upstreams| {
      var front := upstreams[..|upstreams| - 1];
      assert front[..i] == upstreams[..i];
      CatalogKeepsCollisions(front, i);
      var j, k :| 0 <= j < k < |Catalog(front)| && Catalog(front)[j] == Catalog(front)[k];
      assert Catalog(upstreams)[j] == Catalog(upstreams)[k];
    } else {
      assert upstreams[..i] == upstreams;
    }
  }

  const CONTROL_PLANE_PREFIX := "r2r_"

  predicate IsControlPlaneTool(table: Table, tool: string) {
    && CONTROL_PLANE_PREFIX <= tool
    && table.controlPlane.Some?
    && tool in table.owners && table.owners[tool] == table.controlPlane.value
  }

  // ----- the protocol -----

  /** The control plane's answer to a decide, reduced to the fields the gateway reads. */
  datatype Answer = Answer(decision: Option<string>, decisionId: Option<string>)

  datatype Clearance = Clearance(allowed: bool, decisionId: string)

  /** A missing verdict reads as a denial and a missing id as a placeholder. */
  function Authorize(a: Answer): Clearance {
    Clearance((if a.decision.Some? then a.decision.value else "DENY") == ALLOW,
                  if a.decisionId.Some? then a.decisionId.value else "?")
  }

  datatype Phase =
    | Unknown
    | Passing
    | Passed
    | Authorizing
    | Ready(decisionId: string)
    | InFlight(decisionId: string)
    | Reporting(decisionId: string, outcome: OutcomeKind)
    | Resolved

  /** One tool call; `granted` is the decision under which it was allowed, if it was. */
  datatype CallState = CallState(tool: string, phase: Phase, granted: Option<string>)

  datatype Forward = Forward(call: nat, tool: string, decisionId: string)

  datatype Report = Report(call: nat, decisionId: string, outcome: OutcomeKind)

  datatype Gate = Gate(
    table: Table, domain: DomainKey, plane: RuntimeState, calls: seq<CallState>, forwards: seq<Forward>,
      reports: seq<Report>)

  /** What becomes of a decide request: never sent, run but unanswered, answered without a decision, or answered. */
  datatype Fate = NeverSent | ReplyLost | ErrorAnswered(ran: bool) | Delivered

  datatype Move =
    | Arrive(tool: string)
    | PassThrough(call: nat, op: Op, delivered: bool)
    | AskDecision(call: nat, fate: Fate)
    | HandOver(call: nat)
    | UpstreamAnswers(call: nat, succeeded: bool)
    | ReportOutcome(call: nat, delivered: bool)
    | OtherClient(op: Op)

  function Admitted(table: Table, tool: string): Phase {
    if tool !in table.owners then Unknown
    else if IsControlPlaneTool(table, tool) then Passing
    else Authorizing
  }

  function Asked(g: Gate, tool: string): Op {
    DecideOp(DecideParams(g.domain, tool, None, None))
  }

  /** What the gateway does with the fate of its decide request: only a delivered ALLOW makes the call ready. */
  function AfterAsking(c: CallState, authorization: Option<Clearance>): CallState {
    if authorization.None? then c.(phase := Reporting("?", Blocked))
    else if authorization.value.allowed
    then c.(phase := Ready(authorization.value.decisionId), granted := Some(authorization.value.decisionId))
    else c.(phase := Reporting(authorization.value.decisionId, Blocked))
  }

  function Decree(g: Gate, c: nat, fate: Fate): Gate
    requires c < |g.calls|
  {
    var call := g.calls[c];
    var (plane', r) := Step(g.plane, Asked(g, call.tool));
    if g.table.controlPlane.None? || fate.NeverSent? then g.(calls := g.calls[c := AfterAsking(call, None)])
    else if fate.ReplyLost? then g.(plane := plane', calls := g.calls[c := AfterAsking(call, None)])
    else if fate.ErrorAnswered? then
      g.(plane := if fate.ran then plane' else g.plane,
         calls := g.calls[c := AfterAsking(call, Some(Authorize(Answer(None, None))))])
    else
      var answer := if r.Ok? && r.value.Decided? then Answer(Some(r.value.decision), Some(r.value.decisionId))
        else Answer(None, None);
      g.(plane := plane', calls := g.calls[c := AfterAsking(call, Some(Authorize(answer)))])
  }

  /** One step; a step whose call is not in the right phase changes nothing. */
  function Advanced(g: Gate, m: Move): Gate {
    match m
    case Arrive(tool) => g.(calls := g.calls + [CallState(tool, Admitted(g.table, tool), None)])
    case OtherClient(op) => g.(plane := Step(g.plane, op).0)
    case PassThrough(c, op, delivered) =>
      if c < |g.calls| && g.calls[c].phase.Passing? then
        g.(plane := if delivered then Step(g.plane, op).0 else g.plane,
           calls := g.calls[c := g.calls[c].(phase := Passed)])
      else g
    case AskDecision(c, fate) =>
      if c < |g.calls| && g.calls[c].phase.Authorizing? then Decree(g, c, fate) else g
    case HandOver(c) =>
      if c < |g.calls| && g.calls[c].phase.Ready? then
        var id := g.calls[c].phase.decisionId;
        g.(calls := g.calls[c := g.calls[c].(phase := InFlight(id))],
           forwards := g.forwards + [Forward(c, g.calls[c].tool, id)])
      else g
    case UpstreamAnswers(c, succeeded) =>
      if c < |g.calls| && g.calls[c].phase.InFlight? then
        var id := g.calls[c].phase.decisionId;
        g.(calls := g.calls[c := g.calls[c].(phase := Reporting(id, if succeeded then Executed else Failed))])
      else g
    case ReportOutcome(c, delivered) =>
      if c < |g.calls| && g.calls[c].phase.Reporting? then
        var (id, outcome) := (g.calls[c].phase.decisionId, g.calls[c].phase.outcome);
        var done := g.(calls := g.calls[c := g.calls[c].(phase := Resolved)]);
        if g.table.controlPlane.None? then done
        else
          done.(reports := g.reports + [Report(c, id, outcome)],
                plane := if delivered then Step(g.plane, OutcomeOp(OutcomeParams(id, outcome, None))).0 else g.plane)
      else g
  }

  /** Runs start from any table and a control plane with any past. */
  function Moves(table: Table, domain: DomainKey, past: seq<Op>, moves: seq<Move>): Gate {
    if moves == [] then Gate(table, domain, Run(past), [], [], [])
    else Advanced(Moves(table, domain, past, moves[..|moves| - 1]), moves[|moves| - 1])
  }

  // ----- what every interleaving keeps -----

  /** Owned by some upstream, and not one of the control plane's own `r2r_` tools. */
  predicate Gated(table: Table, tool: string) {
    tool in table.owners && !(Some(table.owners[tool]) == table.controlPlane && "r2r_" <= tool)
  }

  ghost predicate StoredAllow(s: StoreState, id: string, domain: DomainKey, tool: string) {
    exists k | 0 <= k < |s.decisions| ::
      && s.decisions[k].decisionId == id && s.decisions[k].verdict == ALLOW
      && s.decisions[k].domain == domain && s.decisions[k].action == tool
  }

  ghost predicate PlaneSound(g: Gate) {
    Sequential(g.plane.store) && SettledIn(g.plane, g.domain)
  }

  /**
   Which tools skip the control plane's authorization, in terms of the upstreams
   the gateway started with: those that the control plane itself lists under its
   prefix, and no tool of anyone else, whatever its name.
   */
  lemma AdmissionByOwner(upstreams: seq<Upstream>, table: Table, i: nat, tool: string)
    requires OwnedBy(table.owners, upstreams)
    requires i < |upstreams| && tool in upstreams[i].Tools()
    ensures Admitted(table, tool) == if "r2r_" <= tool && table.controlPlane == Some(i) then Passing else Authorizing
    ensures Gated(table, tool) <==> !("r2r_" <= tool && table.controlPlane == Some(i))
  {
    assert tool in table.owners && table.owners[tool] == i;
  }

  /** A granted call is gated and backed by a stored ALLOW for the configured domain and its own tool. */
  ghost predicate GrantsBacked(g: Gate) {
    forall c | 0 <= c < |g.calls| && g.calls[c].granted.Some? ::
      Gated(g.table, g.calls[c].tool) && StoredAllow(g.plane.store, g.calls[c].granted.value, g.domain, g.calls[c].tool)
  }

  ghost predicate GrantsDistinct(g: Gate) {
    forall b, c | 0 <= b < c < |g.calls| && g.calls[b].granted.Some? && g.calls[c].granted.Some? ::
      g.calls[b].granted != g.calls[c].granted
  }

  /** The phase of a call says whether it was granted, and under which decision. */
  predicate PhaseFits(table: Table, c: CallState) {
    match c.phase
    case Unknown => c.granted.None? && !Gated(table, c.tool)
    case Passing => c.granted.None? && !Gated(table, c.tool)
    case Passed => c.granted.None? && !Gated(table, c.tool)
    case Authorizing => c.granted.None? && Gated(table, c.tool)
    case Ready(id) => c.granted == Some(id) && Gated(table, c.tool)
    case InFlight(id) => c.granted == Some(id) && Gated(table, c.tool)
    case Reporting(id, outcome) =>
      Gated(table, c.tool) && if outcome.Blocked? then c.granted.None? else c.granted == Some(id)
    case Resolved => Gated(table, c.tool)
  }

  ghost predicate PhasesFit(g: Gate) {
    forall c | 0 <= c < |g.calls| :: PhaseFits(g.table, g.calls[c])
  }

  /** Each forward belongs to one granted call past its hand-over, and no call is forwarded twice. */
  ghost predicate ForwardsOwned(g: Gate) {
    && (forall f | 0 <= f < |g.forwards| ::
          var x := g.forwards[f];
          && x.call < |g.calls| && g.calls[x.call].granted == Some(x.decisionId) && g.calls[x.call].tool == x.tool
          && !g.calls[x.call].phase.Ready?)
    && (forall e, f | 0 <= e < f < |g.forwards| :: g.forwards[e].call != g.forwards[f].call)
  }

  function ReportsOf(reports: seq<Report>, c: nat): nat {
    if reports == [] then 0
    else ReportsOf(reports[..|reports| - 1], c) + if reports[|reports| - 1].call == c then 1 else 0
  }

  /** One outcome request per resolved call, none before, and none at all without a control plane. */
  ghost predicate ReportedOnce(g: Gate) {
    && (forall c: nat :: ReportsOf(g.reports, c)
          == if c < |g.calls| && g.calls[c].phase.Resolved? && g.table.controlPlane.Some? then 1 else 0)
    && (forall r | 0 <= r < |g.reports| ::
          && g.reports[r].call < |g.calls|
          && if g.reports[r].outcome.Blocked? then g.calls[g.reports[r].call].granted.None?
             else g.calls[g.reports[r].call].granted == Some(g.reports[r].decisionId))
  }

  ghost predicate Kept(g: Gate) {
    PlaneSound(g) && GrantsBacked(g) && GrantsDistinct(g) && PhasesFit(g) && ForwardsOwned(g) && ReportedOnce(g)
  }

  lemma PlaneStep(plane: RuntimeState, op: Op, domain: DomainKey)
    requires Sequential(plane.store) && SettledIn(plane, domain)
    ensures Sequential(Step(plane, op).0.store) && SettledIn(Step(plane, op).0, domain)
    ensures plane.store.decisions <= Step(plane, op).0.store.decisions
  {
    hide Step, Sequential, SettledIn;
    StepKeepsSequential(plane, op);
    StepSettles(plane, op, domain);
    StepKeepsDecisions(plane, op);
  }

  lemma StoredAllowPersists(s: StoreState, s': StoreState, id: string, domain: DomainKey, tool: string)
    requires s.decisions <= s'.decisions && StoredAllow(s, id, domain, tool)
    ensures StoredAllow(s', id, domain, tool)
  {
    var k :| 0 <= k < |s.decisions| && s.decisions[k].decisionId == id && s.decisions[k].verdict == ALLOW
      && s.decisions[k].domain == domain && s.decisions[k].action == tool;
    assert s'.decisions[k] == s.decisions[k];
  }

  /** A control-plane operation by anyone else, at any time, breaks nothing. */
  lemma PlaneMovesKeep(g: Gate, op: Op)
    requires Kept(g)
    ensures Kept(g.(plane := Step(g.plane, op).0))
  {
    hide Step, Sequential, SettledIn, StoredAllow, Gated, PhaseFits;
    PlaneStep(g.plane, op, g.domain);
    forall c | 0 <= c < |g.calls| && g.calls[c].granted.Some?
      ensures StoredAllow(Step(g.plane, op).0.store, g.calls[c].granted.value, g.domain, g.calls[c].tool)
    {
      StoredAllowPersists(g.plane.store, Step(g.plane, op).0.store, g.calls[c].granted.value, g.domain,
        g.calls[c].tool);
    }
  }

  /** Moving one call on without granting, forwarding or reporting it. */
  lemma PhaseMovesKeep(g: Gate, c: nat, phase: Phase)
    requires Kept(g) && c < |g.calls|
    requires PhaseFits(g.table, g.calls[c].(phase := phase))
    requires !phase.Ready? && !phase.Resolved? && !g.calls[c].phase.Resolved?
    ensures Kept(g.(calls := g.calls[c := g.calls[c].(phase := phase)]))
  {
    hide Sequential, SettledIn, StoredAllow, Gated, PhaseFits;
  }

  /** What a decide on a sound control plane answers and stores. */
  lemma DecideAnswers(g: Gate, tool: string)
    requires PlaneSound(g)
    ensures var (plane', r) := Step(g.plane, Asked(g, tool)); var id := DecisionId(|g.plane.store.decisions| + 1);
      && r.Ok? && r.value.Decided? && r.value.decisionId == id
      && (r.value.decision == ALLOW ==> StoredAllow(plane'.store, id, g.domain, tool))
      && (r.value.decision == ALLOW
          <==> DomainOf(g.plane.domains, g.domain).kernel.state.authorization.AuthorizationActive?)
      && (forall k | 0 <= k < |g.plane.store.decisions| :: g.plane.store.decisions[k].decisionId != id)
  {
    hide DecisionId, StateVersion, DecisionTrail, CausalChain, Coherent, Uniform, Decision.Name, EventsFor,
      UniqueDomains;
    VerdictNames();
    var (plane', r) := Step(g.plane, Asked(g, tool));
    var n := |g.plane.store.decisions|;
    assert plane'.store.decisions[n] == DecisionRecord(g.plane, Asked(g, tool).decide);
    forall k | 0 <= k < n ensures g.plane.store.decisions[k].decisionId != DecisionId(n + 1) {
      DecisionIdInjective(k + 1, n + 1);
    }
  }

  /** Only a delivered ALLOW grants, and the decision it grants under was never granted before. */
  lemma GrantKeeps(g: Gate, c: nat, id: string)
    requires Kept(g) && c < |g.calls| && g.calls[c].phase.Authorizing?
    requires StoredAllow(g.plane.store, id, g.domain, g.calls[c].tool)
    requires forall b | 0 <= b < |g.calls| && g.calls[b].granted.Some? :: g.calls[b].granted.value != id
    ensures Kept(g.(calls := g.calls[c := g.calls[c].(phase := Ready(id), granted := Some(id))]))
  {
    hide Sequential, SettledIn, StoredAllow, Gated;
    NoReportsYet(g.reports, c);
  }

  lemma {:induction false} NoReportsYet(reports: seq<Report>, c: nat)
    requires ReportsOf(reports, c) == 0
    ensures forall r | 0 <= r < |reports| :: reports[r].call != c
  {
    if reports != [] {
      NoReportsYet(reports[..|reports| - 1], c);
    }
  }

  lemma DecreeKeeps(g: Gate, c: nat, fate: Fate)
    requires Kept(g) && c < |g.calls| && g.calls[c].phase.Authorizing?
    ensures Kept(Decree(g, c, fate))
  {
    hide Step, Gated, GrantsDistinct, ForwardsOwned, ReportedOnce, Sequential, SettledIn;
    var tool := g.calls[c].tool;
    var (plane', r) := Step(g.plane, Asked(g, tool));
    var moved := g.(plane := plane');
    PlaneMovesKeep(g, Asked(g, tool));
    DecideAnswers(g, tool);
    assert PhaseFits(g.table, g.calls[c]);
    PhaseMovesKeep(g, c, Reporting("?", Blocked));
    PhaseMovesKeep(moved, c, Reporting("?", Blocked));
    PhaseMovesKeep(moved, c, Reporting(r.value.decisionId, Blocked));
    if r.value.decision == ALLOW {
      GrantedIdsAreStored(g, r.value.decisionId);
      GrantKeeps(moved, c, r.value.decisionId);
    }
    MissingAnswerDenies();
  }

  lemma MissingAnswerDenies()
    ensures Authorize(Answer(None, None)) == Clearance(false, "?")
  {
  }

  lemma GrantedIdsAreStored(g: Gate, id: string)
    requires GrantsBacked(g)
    requires forall k | 0 <= k < |g.plane.store.decisions| :: g.plane.store.decisions[k].decisionId != id
    ensures forall b | 0 <= b < |g.calls| && g.calls[b].granted.Some? :: g.calls[b].granted.value != id
  {
    hide Gated;
  }

  lemma ReportsSnoc(reports: seq<Report>, r: Report, c: nat)
    ensures ReportsOf(reports + [r], c) == ReportsOf(reports, c) + if r.call == c then 1 else 0
  {
    assert (reports + [r])[..|reports|] == reports;
  }

  lemma HandOverKeeps(g: Gate, c: nat)
    requires Kept(g) && c < |g.calls| && g.calls[c].phase.Ready?
    ensures Kept(Advanced(g, HandOver(c)))
  {
    hide Sequential, SettledIn, StoredAllow, Gated, Step;
    assert PhaseFits(g.table, g.calls[c]);
  }

  /** Resolving a call and requesting its outcome keeps "one request per resolved call". */
  lemma ReportCounts(g: Gate, c: nat)
    requires ReportedOnce(g) && PhasesFit(g) && c < |g.calls| && g.calls[c].phase.Reporting?
    ensures ReportedOnce(Advanced(g, ReportOutcome(c, false)))
  {
    hide Gated, Step, ReportsOf;
    var g' := Advanced(g, ReportOutcome(c, false));
    assert PhaseFits(g.table, g.calls[c]);
    hide PhaseFits, PhasesFit;
    var r := Report(c, g.calls[c].phase.decisionId, g.calls[c].phase.outcome);
    forall b: nat
      ensures ReportsOf(g'.reports, b) == if b < |g'.calls| && g'.calls[b].phase.Resolved? && g.table.controlPlane.Some?
          then 1 else 0
    {
      ReportsSnoc(g.reports, r, b);
      assert ReportsOf(g.reports, b) == if b < |g.calls| && g.calls[b].phase.Resolved? && g.table.controlPlane.Some?
        then 1 else 0;
    }
  }

  lemma ReportKeeps(g: Gate, c: nat)
    requires Kept(g) && c < |g.calls| && g.calls[c].phase.Reporting?
    ensures Kept(Advanced(g, ReportOutcome(c, false)))
  {
    hide Sequential, SettledIn, StoredAllow, Gated, Step, ReportedOnce;
    assert PhaseFits(g.table, g.calls[c]);
    ReportCounts(g, c);
  }

  lemma ArriveKeeps(g: Gate, tool: string)
    requires Kept(g)
    ensures Kept(Advanced(g, Arrive(tool)))
  {
    hide Sequential, SettledIn, StoredAllow, Step;
    assert PhaseFits(g.table, CallState(tool, Admitted(g.table, tool), None));
    hide Gated, PhaseFits, Admitted;
  }

  lemma MoveKeeps(g: Gate, m: Move)
    requires Kept(g)
    ensures Kept(Advanced(g, m))
  {
    hide Kept, Decree, Step;
    match m
    case Arrive(tool) => ArriveKeeps(g, tool);
    case OtherClient(op) => PlaneMovesKeep(g, op);
    case PassThrough(c, op, delivered) =>
      if c < |g.calls| && g.calls[c].phase.Passing? {
        KeptPhase(g, c);
        PhaseMovesKeep(g, c, Passed);
        PlaneMovesKeep(g.(calls := g.calls[c := g.calls[c].(phase := Passed)]), op);
      }
    case AskDecision(c, fate) =>
      if c < |g.calls| && g.calls[c].phase.Authorizing? { DecreeKeeps(g, c, fate); }
    case HandOver(c) =>
      if c < |g.calls| && g.calls[c].phase.Ready? { HandOverKeeps(g, c); }
    case UpstreamAnswers(c, succeeded) =>
      if c < |g.calls| && g.calls[c].phase.InFlight? {
        KeptPhase(g, c);
        PhaseMovesKeep(g, c, Reporting(g.calls[c].phase.decisionId, if succeeded then Executed else Failed));
      }
    case ReportOutcome(c, delivered) =>
      if c < |g.calls| && g.calls[c].phase.Reporting? {
        ReportKeeps(g, c);
        PlaneMovesKeep(Advanced(g, ReportOutcome(c, false)),
                       OutcomeOp(OutcomeParams(g.calls[c].phase.decisionId, g.calls[c].phase.outcome, None)));
      }
  }

  lemma KeptPhase(g: Gate, c: nat)
    requires Kept(g) && c < |g.calls|
    ensures PhaseFits(g.table, g.calls[c])
  {
  }

  lemma {:induction false} MovesKeep(table: Table, domain: DomainKey, past: seq<Op>, moves: seq<Move>)
    ensures Kept(Moves(table, domain, past, moves))
  {
    hide Advanced, Kept;
    if moves == [] {
      RunAgrees(past);
      SuspensionClosedForm(past, domain);
      FreshGateKept(table, domain, Run(past));
    } else {
      MovesKeep(table, domain, past, moves[..|moves| - 1]);
      MoveKeeps(Moves(table, domain, past, moves[..|moves| - 1]), moves[|moves| - 1]);
    }
  }

  lemma FreshGateKept(table: Table, domain: DomainKey, plane: RuntimeState)
    requires Sequential(plane.store) && SettledIn(plane, domain)
    ensures Kept(Gate(table, domain, plane, [], [], []))
  {
    hide Sequential, SettledIn;
  }

  /**
   In every interleaving each forwarded call owns a stored ALLOW decision for
   the configured domain and its own tool, no two forwards share one, and no
   call is forwarded twice.
   */
  lemma ForwardsOwnDistinctAllows(table: Table, domain: DomainKey, past: seq<Op>, moves: seq<Move>)
    ensures var g := Moves(table, domain, past, moves);
      && (forall f | 0 <= f < |g.forwards| ::
            && Gated(table, g.forwards[f].tool)
            && StoredAllow(g.plane.store, g.forwards[f].decisionId, domain, g.forwards[f].tool))
      && (forall e, f | 0 <= e < f < |g.forwards| ::
            g.forwards[e].decisionId != g.forwards[f].decisionId && g.forwards[e].call != g.forwards[f].call)
  {
    hide Advanced, StoredAllow, Gated, PlaneSound, PhasesFit, ReportedOnce;
    var g := Moves(table, domain, past, moves);
    MovesKeep(table, domain, past, moves);
    SetupStays(table, domain, past, moves);
    forall e, f | 0 <= e < f < |g.forwards| ensures g.forwards[e].decisionId != g.forwards[f].decisionId {
      var (b, c) := (g.forwards[e].call, g.forwards[f].call);
      if b < c {
        assert g.calls[b].granted != g.calls[c].granted;
      } else {
        assert g.calls[c].granted != g.calls[b].granted;
      }
    }
  }

  lemma {:induction false} SetupStays(table: Table, domain: DomainKey, past: seq<Op>, moves: seq<Move>)
    ensures Moves(table, domain, past, moves).table == table && Moves(table, domain, past, moves).domain == domain
  {
    hide Step, Admitted, Run;
    if moves != [] {
      SetupStays(table, domain, past, moves[..|moves| - 1]);
    }
  }

  /**
   In every interleaving with a control plane each gated call that resolved
   issued exactly one outcome record, one that has not resolved issued none, and
   the record says "blocked" exactly for calls that were never granted.
   */
  lemma ResolvedCallsReportOnce(table: Table, domain: DomainKey, past: seq<Op>, moves: seq<Move>, c: nat)
    requires c < |Moves(table, domain, past, moves).calls|
    ensures var g := Moves(table, domain, past, moves);
      && ReportsOf(g.reports, c) == (if g.calls[c].phase.Resolved? && table.controlPlane.Some? then 1 else 0)
      && (g.calls[c].phase.Resolved? ==> Gated(table, g.calls[c].tool))
      && (forall r | 0 <= r < |g.reports| && g.reports[r].call == c ::
            && (g.reports[r].outcome.Blocked? <==> g.calls[c].granted.None?)
            && (g.calls[c].granted.Some? ==> g.reports[r].decisionId == g.calls[c].granted.value))
  {
    hide Advanced, Gated, PlaneSound, ForwardsOwned, GrantsBacked, GrantsDistinct;
    MovesKeep(table, domain, past, moves);
    SetupStays(table, domain, past, moves);
    KeptPhase(Moves(table, domain, past, moves), c);
  }

  /**
   In every interleaving only the control plane's own `r2r_` tools pass through
   without a decision, and a tool nobody lists is never passed or authorized.
   */
  lemma OnlyControlPlanePasses(
    upstreams: seq<Upstream>, table: Table, domain: DomainKey, past: seq<Op>, moves: seq<Move>, c: nat)
    requires OwnedBy(table.owners, upstreams)
    requires c < |Moves(table, domain, past, moves).calls|
    ensures var call := Moves(table, domain, past, moves).calls[c];
      && (call.phase.Passing? || call.phase.Passed? ==>
            && "r2r_" <= call.tool && table.controlPlane.Some? && table.controlPlane.value < |upstreams|
            && call.tool in upstreams[table.controlPlane.value].Tools())
      && (call.phase.Unknown? <==> forall i | 0 <= i < |upstreams| :: call.tool !in upstreams[i].Tools())
  {
    hide Advanced, Run, OwnedBy;
    CallsFollowTheirTool(table, domain, past, moves, c);
    var tool := Moves(table, domain, past, moves).calls[c].tool;
    OwnersAreListers(upstreams, table, tool);
  }

  lemma OwnersAreListers(upstreams: seq<Upstream>, table: Table, tool: string)
    requires OwnedBy(table.owners, upstreams)
    ensures tool in table.owners ==> table.owners[tool] < |upstreams| && tool in upstreams[table.owners[tool]].Tools()
    ensures tool in table.owners <==> exists i | 0 <= i < |upstreams| :: tool in upstreams[i].Tools()
  {
  }

  /** Where a call can be, by its tool alone. */
  predicate FollowsTool(table: Table, c: CallState) {
    && (c.phase.Unknown? <==> c.tool !in table.owners)
    && (c.phase.Passing? || c.phase.Passed? ==>
          c.tool in table.owners && Some(table.owners[c.tool]) == table.controlPlane && "r2r_" <= c.tool)
  }

  lemma MoveFollowsTools(g: Gate, m: Move)
    requires forall c | 0 <= c < |g.calls| :: FollowsTool(g.table, g.calls[c])
    ensures Advanced(g, m).table == g.table
    ensures forall c | 0 <= c < |Advanced(g, m).calls| :: FollowsTool(g.table, Advanced(g, m).calls[c])
  {
    hide Step, Authorize;
  }

  lemma {:induction false} CallsFollowTheirTool(table: Table, domain: DomainKey, past: seq<Op>, moves: seq<Move>,
      c: nat)
    requires c < |Moves(table, domain, past, moves).calls|
    ensures FollowsTool(table, Moves(table, domain, past, moves).calls[c])
  {
    hide Run, Advanced, FollowsTool;
    if moves != [] {
      var g := Moves(table, domain, past, moves[..|moves| - 1]);
      forall b: nat | b < |g.calls| ensures FollowsTool(table, g.calls[b]) {
        CallsFollowTheirTool(table, domain, past, moves[..|moves| - 1], b);
      }
      SetupStays(table, domain, past, moves[..|moves| - 1]);
      MoveFollowsTools(g, moves[|moves| - 1]);
    }
  }

  // ----- suspension -----

  ghost predicate SuspendedNow(g: Gate) {
    DomainOf(g.plane.domains, g.domain).kernel.state.authorization.AuthorizationSuspended?
  }

  ghost predicate NotGranted(g: Gate, c: nat) {
    c < |g.calls| ==> g.calls[c].granted.None?
  }

  lemma PlaneStaysSuspended(g: Gate, op: Op)
    requires PlaneSound(g) && SuspendedNow(g)
    ensures SuspendedNow(g.(plane := Step(g.plane, op).0))
  {
    hide Step, Sequential, SettledIn;
    StepSettles(g.plane, op, g.domain);
  }

  lemma SuspendedDecreeGrantsNothing(g: Gate, b: nat, fate: Fate, c: nat)
    requires PlaneSound(g) && SuspendedNow(g) && NotGranted(g, c)
    requires b < |g.calls|
    ensures SuspendedNow(Decree(g, b, fate)) && NotGranted(Decree(g, b, fate), c)
    ensures Decree(g, b, fate).forwards == g.forwards
  {
    hide Step, Sequential, SettledIn, DomainOf, StoredAllow, DecisionId;
    PlaneStaysSuspended(g, Asked(g, g.calls[b].tool));
    DecideAnswers(g, g.calls[b].tool);
    MissingAnswerDenies();
  }

  lemma SuspendedMoveGrantsNothing(g: Gate, m: Move, c: nat)
    requires Kept(g) && SuspendedNow(g) && NotGranted(g, c)
    ensures SuspendedNow(Advanced(g, m)) && NotGranted(Advanced(g, m), c)
  {
    hide Step, Sequential, SettledIn, DomainOf, Decree, Gated, Admitted, GrantsBacked, GrantsDistinct, PhasesFit,
      ForwardsOwned, ReportedOnce;
    match m
    case PassThrough(_, op, _) => PlaneStaysSuspended(g, op);
    case OtherClient(op) => PlaneStaysSuspended(g, op);
    case AskDecision(b, fate) => if b < |g.calls| { SuspendedDecreeGrantsNothing(g, b, fate, c); }
    case ReportOutcome(b, _) =>
      if b < |g.calls| && g.calls[b].phase.Reporting? {
        PlaneStaysSuspended(g, OutcomeOp(OutcomeParams(g.calls[b].phase.decisionId, g.calls[b].phase.outcome, None)));
      }
    case _ =>
  }

  lemma {:induction false} SuspensionLasts(table: Table, domain: DomainKey, past: seq<Op>, moves: seq<Move>,
      more: seq<Move>, c: nat)
    requires SuspendedNow(Moves(table, domain, past, moves)) && NotGranted(Moves(table, domain, past, moves), c)
    ensures SuspendedNow(Moves(table, domain, past, moves + more))
        && NotGranted(Moves(table, domain, past, moves + more), c)
  {
    hide Advanced, SuspendedNow, NotGranted, Kept;
    if more == [] {
      assert moves + more == moves;
    } else {
      var front := more[..|more| - 1];
      SuspensionLasts(table, domain, past, moves, front, c);
      MovesKeep(table, domain, past, moves + front);
      assert (moves + more)[..|moves + more| - 1] == moves + front;
      SuspendedMoveGrantsNothing(Moves(table, domain, past, moves + front), more[|more| - 1], c);
    }
  }

  /**
   Once the configured domain is suspended at the control plane, no call that
   has not been decided yet is ever forwarded, whatever interleaves afterwards.
   */
  lemma NoForwardAfterSuspension(table: Table, domain: DomainKey, past: seq<Op>, moves: seq<Move>, more: seq<Move>,
      c: nat)
    requires SuspendedNow(Moves(table, domain, past, moves)) && NotGranted(Moves(table, domain, past, moves), c)
    ensures forall f | f in Moves(table, domain, past, moves + more).forwards :: f.call != c
  {
    hide Advanced, PlaneSound, GrantsBacked, GrantsDistinct, PhasesFit, ReportedOnce;
    SuspensionLasts(table, domain, past, moves, more, c);
    MovesKeep(table, domain, past, moves + more);
  }

  // ----- every route to the control plane -----

  /** The operation a move executes at the control plane, whichever route it takes there, if it executes one. */
  function Executes(g: Gate, m: Move): seq<Op> {
    match m
    case OtherClient(op) => [op]
    case PassThrough(c, op, delivered) =>
      if c < |g.calls| && g.calls[c].phase.Passing? && delivered then [op] else []
    case AskDecision(c, fate) =>
      if && c < |g.calls| && g.calls[c].phase.Authorizing? && g.table.controlPlane.Some?
         && (fate.ReplyLost? || fate.Delivered? || (fate.ErrorAnswered? && fate.ran))
      then [Asked(g, g.calls[c].tool)] else []
    case ReportOutcome(c, delivered) =>
      if c < |g.calls| && g.calls[c].phase.Reporting? && g.table.controlPlane.Some? && delivered
      then [OutcomeOp(OutcomeParams(g.calls[c].phase.decisionId, g.calls[c].phase.outcome, None))] else []
    case _ => []
  }

  function PlaneOps(table: Table, domain: DomainKey, past: seq<Op>, moves: seq<Move>): seq<Op> {
    if moves == [] then []
    else
      var front := moves[..|moves| - 1];
      PlaneOps(table, domain, past, front) + Executes(Moves(table, domain, past, front), moves[|moves| - 1])
  }

  lemma MoveExecutes(g: Gate, m: Move)
    ensures Advanced(g, m).plane == if Executes(g, m) == [] then g.plane else Step(g.plane, Executes(g, m)[0]).0
    ensures |Executes(g, m)| <= 1
  {
    hide Step, Authorize;
  }

  /**
   In every interleaving the control plane is the run of what was executed there:
   its past and then every move's share.
   */
  lemma {:induction false} PlaneIsRun(table: Table, domain: DomainKey, past: seq<Op>, moves: seq<Move>)
    ensures Moves(table, domain, past, moves).plane == Run(past + PlaneOps(table, domain, past, moves))
  {
    hide Advanced, Executes, RunFrom, Step;
    if moves == [] {
      assert past + [] == past;
    } else {
      var front, m := moves[..|moves| - 1], moves[|moves| - 1];
      PlaneIsRun(table, domain, past, front);
      var g, before := Moves(table, domain, past, front), past + PlaneOps(table, domain, past, front);
      MoveExecutes(g, m);
      if Executes(g, m) == [] {
        assert past + PlaneOps(table, domain, past, moves) == before;
      } else {
        RunSnoc(NEW_RUNTIME, before, Executes(g, m)[0]);
        assert past + PlaneOps(table, domain, past, moves) == before + [Executes(g, m)[0]];
      }
    }
  }

  /** So the configured domain is suspended exactly when a strong observation of it was executed, by whatever route. */
  lemma SuspendedExactly(table: Table, domain: DomainKey, past: seq<Op>, moves: seq<Move>)
    ensures SuspendedNow(Moves(table, domain, past, moves))
        <==> SuspendedBy(past + PlaneOps(table, domain, past, moves), domain)
  {
    hide Moves, PlaneOps, Run, SuspendedBy, SettledIn;
    PlaneIsRun(table, domain, past, moves);
    SetupStays(table, domain, past, moves);
    SuspensionClosedForm(past + PlaneOps(table, domain, past, moves), domain);
  }

  /** A strong observation of the configured domain suspends it, through the gateway or around it. */
  lemma StrongObservationSuspends(table: Table, domain: DomainKey, past: seq<Op>, moves: seq<Move>, m: Move, op: Op)
    requires op in Executes(Moves(table, domain, past, moves), m) && StrongIn(op, domain)
    ensures SuspendedNow(Moves(table, domain, past, moves + [m]))
  {
    hide Moves, Executes, StrongIn, SuspendedNow;
    assert (moves + [m])[..|moves|] == moves;
    var all := past + PlaneOps(table, domain, past, moves + [m]);
    assert op in all;
    var i :| 0 <= i < |all| && all[i] == op;
    assert StrongIn(all[i], domain);
    SuspendedExactly(table, domain, past, moves + [m]);
  }

  ghost predicate Undecided(moves: seq<Move>, c: nat) {
    forall m | m in moves :: !(m.AskDecision? && m.call == c)
  }

  lemma {:induction false} UndecidedIsUngranted(table: Table, domain: DomainKey, past: seq<Op>, moves: seq<Move>,
      c: nat)
    requires Undecided(moves, c)
    ensures NotGranted(Moves(table, domain, past, moves), c)
  {
    hide Step, Authorize, Admitted, Run;
    if moves != [] {
      UndecidedIsUngranted(table, domain, past, moves[..|moves| - 1], c);
      assert moves[|moves| - 1] in moves;
    }
  }

  /**
   No call whose decide step follows a strong observation of the configured
   domain is ever forwarded, whichever route that observation took and whatever
   interleaves before and afterwards.
   */
  lemma NoForwardAfterObservation(
    table: Table, domain: DomainKey, past: seq<Op>, moves: seq<Move>, m: Move, op: Op, more: seq<Move>, c: nat)
    requires op in Executes(Moves(table, domain, past, moves), m) && StrongIn(op, domain)
    requires Undecided(moves + [m], c)
    ensures forall f | f in Moves(table, domain, past, moves + [m] + more).forwards :: f.call != c
  {
    hide Moves, Executes, StrongIn, SuspendedNow, NotGranted, Undecided;
    StrongObservationSuspends(table, domain, past, moves, m, op);
    UndecidedIsUngranted(table, domain, past, moves + [m], c);
    NoForwardAfterSuspension(table, domain, past, moves + [m], more, c);
  }

  // ----- the execution gate on a granted decision -----

  /**
   What the execution gate says of a granted decision, at hand-over or at any
   later time: allowed exactly when it is presented with the initial version and
   the configured domain is still active, and stale exactly when it is no longer.
   */
  lemma GateOnGrant(table: Table, domain: DomainKey, past: seq<Op>, moves: seq<Move>, c: nat, version: string)
    requires var g := Moves(table, domain, past, moves); c < |g.calls| && g.calls[c].granted.Some?
    ensures var g := Moves(table, domain, past, moves);
      var r := ValidateExecution(None, g.plane.store, Request(g.calls[c].granted.value, g.calls[c].tool, version));
      && r.Ok?
      && (r.value.allowed <==> version == StateVersion(0) && !SuspendedNow(g))
      && (r.value.reason.StateVersionStale? <==> version == StateVersion(0) && SuspendedNow(g))
  {
    hide Moves, PlaneOps, Run, StateVersion, DecisionId, FindDecision, SuspendedBy, Coherent, Uniform, Gated,
      GrantsDistinct, PhasesFit, ForwardsOwned, ReportedOnce, DecisionTrail, CausalChain, Decision.Name, UniqueDomains;
    var g := Moves(table, domain, past, moves);
    var ops := past + PlaneOps(table, domain, past, moves);
    MovesKeep(table, domain, past, moves);
    SetupStays(table, domain, past, moves);
    PlaneIsRun(table, domain, past, moves);
    var s, id := g.plane.store, g.calls[c].granted.value;
    assert StoredAllow(s, id, domain, g.calls[c].tool);
    var k :| 0 <= k < |s.decisions| && s.decisions[k].decisionId == id && s.decisions[k].verdict == ALLOW
      && s.decisions[k].domain == domain && s.decisions[k].action == g.calls[c].tool;
    FindIsExact(s.decisions, id);
    var i := DecisionHasCall(ops, s.decisions[k]);
    SuspensionClosedForm(ops[..i], domain);
    SuspensionClosedForm(ops, domain);
    VerdictNames();
    StateVersionInjective(StateCounter(s.versions, domain), 0);
  }

  /**
   The gateway does not ask again at hand-over. A call that is ready when a
   strong observation arrives is still forwarded after it, under a decision that
   the execution gate would by then refuse as stale.
   */
  lemma GrantOutlivesSuspension(table: Table, domain: DomainKey, past: seq<Op>, moves: seq<Move>, c: nat, op: Op)
    requires c < |Moves(table, domain, past, moves).calls| && Moves(table, domain, past, moves).calls[c].phase.Ready?
    requires StrongIn(op, domain)
    ensures var g := Moves(table, domain, past, moves + [OtherClient(op)] + [HandOver(c)]);
      && SuspendedNow(g)
      && (exists f | f in g.forwards :: f.call == c)
      && c < |g.calls| && g.calls[c].granted.Some?
      && ValidateExecution(None, g.plane.store,
          Request(g.calls[c].granted.value, g.calls[c].tool, StateVersion(0))).value.reason.StateVersionStale?
  {
    hide Step, Run, StateVersion, StrongIn, SuspendedNow, ValidateExecution, PlaneSound, Gated, GrantsBacked,
      GrantsDistinct, ReportedOnce;
    var suspended := moves + [OtherClient(op)];
    var done := suspended + [HandOver(c)];
    assert suspended[..|moves|] == moves && done[..|suspended|] == suspended;
    StrongObservationSuspends(table, domain, past, moves, OtherClient(op), op);
    var g, g' := Moves(table, domain, past, suspended), Moves(table, domain, past, done);
    assert g'.plane == g.plane && g'.domain == g.domain;
    SamePlaneSuspended(g, g');
    assert g'.forwards[|g.forwards|].call == c;
    MovesKeep(table, domain, past, done);
    KeptPhase(g', c);
    GateOnGrant(table, domain, past, done, c, StateVersion(0));
  }

  lemma SamePlaneSuspended(a: Gate, b: Gate)
    requires a.plane == b.plane && a.domain == b.domain && SuspendedNow(a)
    ensures SuspendedNow(b)
  {
  }

  // ----- what the reports say -----

  /** What the upstream answered to call `c` while it was in flight, if it has. */
  function UpstreamAnswer(table: Table, domain: DomainKey, past: seq<Op>, moves: seq<Move>, c: nat): Option<bool> {
    if moves == [] then None
    else
      var g, m := Moves(table, domain, past, moves[..|moves| - 1]), moves[|moves| - 1];
      if m.UpstreamAnswers? && m.call == c && c < |g.calls| && g.calls[c].phase.InFlight? then Some(m.succeeded)
      else UpstreamAnswer(table, domain, past, moves[..|moves| - 1], c)
  }

  function OutcomeOf(answer: Option<bool>): OutcomeKind {
    if answer.None? then Blocked else if answer.value then Executed else Failed
  }

  function ForwardsOf(forwards: seq<Forward>, c: nat): nat {
    if forwards == [] then 0
    else ForwardsOf(forwards[..|forwards| - 1], c) + if forwards[|forwards| - 1].call == c then 1 else 0
  }

  ghost predicate Unreported(g: Gate, c: nat) {
    forall r | r in g.reports :: r.call != c
  }

  /** The phase of call `c` and what was forwarded and reported for it fit what its upstream answered. */
  ghost predicate TellsAnswer(g: Gate, c: nat, answer: Option<bool>) {
    if c >= |g.calls| then answer.None? && ForwardsOf(g.forwards, c) == 0 && Unreported(g, c)
    else match g.calls[c].phase
      case InFlight(_) => answer.None? && ForwardsOf(g.forwards, c) == 1 && Unreported(g, c)
      case Reporting(_, outcome) =>
        outcome == OutcomeOf(answer) && ForwardsOf(g.forwards, c) == (if answer.Some? then 1 else 0) && Unreported(g, c)
      case Resolved =>
        && ForwardsOf(g.forwards, c) == (if answer.Some? then 1 else 0)
        && forall r | r in g.reports && r.call == c :: r.outcome == OutcomeOf(answer)
      case _ => answer.None? && ForwardsOf(g.forwards, c) == 0 && Unreported(g, c)
  }

  lemma ForwardsSnoc(forwards: seq<Forward>, f: Forward, c: nat)
    ensures ForwardsOf(forwards + [f], c) == ForwardsOf(forwards, c) + if f.call == c then 1 else 0
  {
    assert (forwards + [f])[..|forwards|] == forwards;
  }

  lemma MoveTells(g: Gate, m: Move, c: nat, answer: Option<bool>)
    requires TellsAnswer(g, c, answer)
    ensures TellsAnswer(
              Advanced(g, m), c,
              if m.UpstreamAnswers? && m.call == c && c < |g.calls| && g.calls[c].phase.InFlight?
              then Some(m.succeeded) else answer)
  {
    hide Step, Authorize, ForwardsOf, IsControlPlaneTool;
    if m.HandOver? && m.call < |g.calls| && g.calls[m.call].phase.Ready? {
      ForwardsSnoc(g.forwards, Forward(m.call, g.calls[m.call].tool, g.calls[m.call].phase.decisionId), c);
    }
  }

  lemma {:induction false} CallsTellAnswers(table: Table, domain: DomainKey, past: seq<Op>, moves: seq<Move>, c: nat)
    ensures TellsAnswer(Moves(table, domain, past, moves), c, UpstreamAnswer(table, domain, past, moves, c))
  {
    hide Advanced, Run;
    if moves != [] {
      hide TellsAnswer;
      CallsTellAnswers(table, domain, past, moves[..|moves| - 1], c);
      MoveTells(Moves(table, domain, past, moves[..|moves| - 1]), moves[|moves| - 1], c,
                UpstreamAnswer(table, domain, past, moves[..|moves| - 1], c));
    }
  }

  /**
   In every interleaving a resolved call was forwarded exactly when its upstream
   answered, and then once; its report says "executed" or "failed" as the
   upstream answered, and "blocked" when it never did.
   */
  lemma ReportsTellTheAnswer(table: Table, domain: DomainKey, past: seq<Op>, moves: seq<Move>, c: nat)
    requires c < |Moves(table, domain, past, moves).calls| && Moves(table, domain, past, moves).calls[c].phase.Resolved?
    ensures var g := Moves(table, domain, past, moves); var answer := UpstreamAnswer(table, domain, past, moves, c);
      && ForwardsOf(g.forwards, c) == (if answer.Some? then 1 else 0)
      && forall r | r in g.reports && r.call == c :: r.outcome == OutcomeOf(answer)
  {
    hide Moves, UpstreamAnswer;
    CallsTellAnswers(table, domain, past, moves, c);
  }

  // ----- under which decision a call is reported -----

  /** The id that the control plane's delivered answer to call `c` named, if one was delivered. */
  function DeliveredId(table: Table, domain: DomainKey, past: seq<Op>, moves: seq<Move>, c: nat): Option<string> {
    if moves == [] then None
    else
      var front, m := moves[..|moves| - 1], moves[|moves| - 1];
      if Delivers(Moves(table, domain, past, front), m, c) then Some(NextDecisionId(Moves(table, domain, past, front)))
      else DeliveredId(table, domain, past, front, c)
  }

  predicate Delivers(g: Gate, m: Move, c: nat) {
    && m.AskDecision? && m.call == c && m.fate.Delivered?
    && c < |g.calls| && g.calls[c].phase.Authorizing? && g.table.controlPlane.Some?
  }

  function NextDecisionId(g: Gate): string {
    DecisionId(|g.plane.store.decisions| + 1)
  }

  /** The id a call's phase and reports carry: the delivered decision's, or the placeholder when none was delivered. */
  ghost predicate CarriesId(g: Gate, c: nat, delivered: Option<string>) {
    var id := if delivered.Some? then delivered.value else "?";
    if c >= |g.calls| then delivered.None? && Unreported(g, c)
    else match g.calls[c].phase
      case Ready(x) => delivered == Some(x) && Unreported(g, c)
      case InFlight(x) => delivered == Some(x) && Unreported(g, c)
      case Reporting(x, _) => x == id && Unreported(g, c)
      case Resolved => forall r | r in g.reports && r.call == c :: r.decisionId == id
      case _ => delivered.None? && Unreported(g, c)
  }

  lemma DecreeCarries(g: Gate, c: nat, fate: Fate)
    requires PlaneSound(g) && c < |g.calls| && g.calls[c].phase.Authorizing? && CarriesId(g, c, None)
    ensures CarriesId(
              Decree(g, c, fate), c, if Delivers(g, AskDecision(c, fate), c) then Some(NextDecisionId(g)) else None)
  {
    hide Step, Sequential, SettledIn, StoredAllow, DomainOf, DecisionId;
    DecideAnswers(g, g.calls[c].tool);
  }

  lemma MoveCarries(g: Gate, m: Move, c: nat, delivered: Option<string>)
    requires PlaneSound(g) && CarriesId(g, c, delivered)
    ensures CarriesId(Advanced(g, m), c, if Delivers(g, m, c) then Some(NextDecisionId(g)) else delivered)
  {
    hide Step, Authorize, Decree, IsControlPlaneTool, DecisionId, PlaneSound;
    if m.AskDecision? && m.call < |g.calls| && g.calls[m.call].phase.Authorizing? {
      if m.call == c {
        DecreeCarries(g, c, m.fate);
      } else {
        DecreeLeavesOthers(g, m.call, m.fate);
      }
    }
  }

  lemma DecreeLeavesOthers(g: Gate, b: nat, fate: Fate)
    requires b < |g.calls|
    ensures var g' := Decree(g, b, fate);
      && g'.reports == g.reports && |g'.calls| == |g.calls|
      && forall c | 0 <= c < |g.calls| && c != b :: g'.calls[c] == g.calls[c]
  {
    hide Step, Authorize;
  }

  lemma {:induction false} CallsCarryIds(table: Table, domain: DomainKey, past: seq<Op>, moves: seq<Move>, c: nat)
    ensures CarriesId(Moves(table, domain, past, moves), c, DeliveredId(table, domain, past, moves, c))
  {
    hide Advanced, Run;
    if moves != [] {
      hide CarriesId, Kept, Delivers, NextDecisionId;
      var front := moves[..|moves| - 1];
      CallsCarryIds(table, domain, past, front, c);
      MovesKeep(table, domain, past, front);
      KeptPlane(Moves(table, domain, past, front));
      MoveCarries(Moves(table, domain, past, front), moves[|moves| - 1], c, DeliveredId(table, domain, past, front, c));
    }
  }

  lemma KeptPlane(g: Gate)
    requires Kept(g)
    ensures PlaneSound(g)
  {
  }

  /**
   In every interleaving a resolved call, granted or not, is reported under the
   decision that the control plane's answer to it named, and under the placeholder
   "?" exactly when no answer was delivered.
   */
  lemma ReportsNameTheAnswer(table: Table, domain: DomainKey, past: seq<Op>, moves: seq<Move>, c: nat)
    requires c < |Moves(table, domain, past, moves).calls| && Moves(table, domain, past, moves).calls[c].phase.Resolved?
    ensures var delivered := DeliveredId(table, domain, past, moves, c);
      forall r | r in Moves(table, domain, past, moves).reports && r.call == c ::
        r.decisionId == if delivered.Some? then delivered.value else "?"
  {
    hide Moves, DeliveredId;
    CallsCarryIds(table, domain, past, moves, c);
  }

  /**
   A delivered report of a granted call is recorded at the control plane as one
   more outcome, under the granted decision and naming what the report says.
   */
  lemma DeliveredReportIsRecorded(table: Table, domain: DomainKey, past: seq<Op>, moves: seq<Move>, c: nat)
    requires var g := Moves(table, domain, past, moves);
      && c < |g.calls| && g.calls[c].phase.Reporting? && g.calls[c].granted.Some? && g.table.controlPlane.Some?
    ensures var g := Moves(table, domain, past, moves);
      var outcomes := Moves(table, domain, past, moves + [ReportOutcome(c, true)]).plane.store.outcomes;
      && |outcomes| == |g.plane.store.outcomes| + 1
      && outcomes[..|g.plane.store.outcomes|] == g.plane.store.outcomes
      && outcomes[|g.plane.store.outcomes|].decisionId == g.calls[c].granted.value
      && KindNamed(outcomes[|g.plane.store.outcomes|].outcome) == Some(g.calls[c].phase.outcome)
      && outcomes[|g.plane.store.outcomes|].domain == domain
  {
    var g := Moves(table, domain, past, moves);
    assert (moves + [ReportOutcome(c, true)])[..|moves|] == moves;
    MovesKeep(table, domain, past, moves);
    SetupStays(table, domain, past, moves);
    GrantedReport(g, c);
  }

  lemma GrantedReport(g: Gate, c: nat)
    requires Kept(g) && c < |g.calls| && g.calls[c].phase.Reporting? && g.calls[c].granted.Some?
        && g.table.controlPlane.Some?
    ensures var before := g.plane.store.outcomes; var after := Advanced(g, ReportOutcome(c, true)).plane.store.outcomes;
      && |after| == |before| + 1
      && after[..|before|] == before
      && after[|before|].decisionId == g.calls[c].granted.value
      && KindNamed(after[|before|].outcome) == Some(g.calls[c].phase.outcome)
      && after[|before|].domain == g.domain
  {
    hide GrantsDistinct, ForwardsOwned, ReportedOnce, SettledIn, Gated, StateVersion, OutcomeId, DecisionId,
      FindDecision, UniqueDomains, KindNamed, OutcomeKind.Name;
    KeptPhase(g, c);
    KindNamedUndoesName(g.calls[c].phase.outcome);
    var s, id := g.plane.store, g.calls[c].granted.value;
    assert StoredAllow(s, id, g.domain, g.calls[c].tool);
    var k :| 0 <= k < |s.decisions| && s.decisions[k].decisionId == id && s.decisions[k].verdict == ALLOW
      && s.decisions[k].domain == g.domain && s.decisions[k].action == g.calls[c].tool;
    FindIsExact(s.decisions, id);
    assert g.calls[c].phase.decisionId == id;
  }
}
