/**
 The in-memory update driver: plans go through an eleven-state machine by planning, executing,
 verifying, activating and rolling back.
 */
module UpdateDriver {
  import opened Wrappers

  type PlanId = string

  datatype UpdateState =
    | Planned | Executing | Executed | Verifying | Verified | Activating | Active
    | Failed | RollingBack | RolledBack | RollbackFailed

  datatype FailureClass = ExecuteError | VerifyMismatch | ActivateError | PolicyDenied

  datatype RollbackReason = VerifyFailed | PolicyRevoked | UserRequested | RegressionDetected

  datatype PlanRequest = PlanRequest(packageId: string, fromVersion: string, toVersion: string, dryRun: bool)

  datatype Plan = Plan(
    id: PlanId,
    packageId: string,
    fromVersion: string,
    toVersion: string,
    state: UpdateState,
    failureClass: Option<FailureClass>,
    createdAt: int,
    stateChangedAt: int)

  /** Evidence events of a plan. */
  datatype PhaseEvent =
    | ExecutedEvent | VerifiedEvent | FailedEvent(failure: FailureClass) | ActivatedEvent
    | RolledBackEvent(reason: RollbackReason)

  datatype Error =
    | PlanNotFound(id: PlanId)
    | InvalidTransition(from: UpdateState, to: UpdateState)
    | EmitFailed

  // ---------------------------------------------------------------------------
  // The state machine
  // ---------------------------------------------------------------------------

  predicate IsLegal(from: UpdateState, to: UpdateState) {
    match from
    case Planned => to.Executing? || to.Failed?
    case Executing => to.Executed? || to.Failed?
    case Executed => to.Verifying? || to.RollingBack?
    case Verifying => to.Verified? || to.Failed?
    case Verified => to.Activating? || to.RollingBack?
    case Activating => to.Active? || to.Failed?
    case Failed => to.RollingBack?
    case Active => to.RollingBack?
    case RollingBack => to.RolledBack? || to.RollbackFailed?
    case RolledBack => false
    case RollbackFailed => false
  }

  function Transition(p: Plan, to: UpdateState, now: int): Result<Plan, Error> {
    if IsLegal(p.state, to) then Ok(p.(state := to, stateChangedAt := now))
    else Err(InvalidTransition(p.state, to))
  }

  /** A transition is made exactly along one of sixteen edges, and changes the state and the time of
      the change. */
  lemma TransitionExactly(p: Plan, to: UpdateState, now: int)
    ensures Transition(p, to, now) ==
            if (p.state, to) in {
                 (Planned, Executing), (Planned, Failed), (Executing, Executed), (Executing, Failed),
                 (Executed, Verifying), (Executed, RollingBack), (Verifying, Verified), (Verifying, Failed),
                 (Verified, Activating), (Verified, RollingBack), (Activating, Active), (Activating, Failed),
                 (Failed, RollingBack), (Active, RollingBack),
                 (RollingBack, RolledBack), (RollingBack, RollbackFailed)}
            then Ok(Plan(p.id, p.packageId, p.fromVersion, p.toVersion, to, p.failureClass, p.createdAt, now))
            else Err(InvalidTransition(p.state, to))
  {
  }

  /** A measure that every legal edge raises. */
  function Rank(s: UpdateState): nat {
    match s
    case Planned => 0
    case Executing => 1
    case Executed => 2
    case Verifying => 3
    case Verified => 4
    case Activating => 5
    case Active => 6
    case Failed => 6
    case RollingBack => 7
    case RolledBack => 8
    case RollbackFailed => 8
  }

  // ---------------------------------------------------------------------------
  // The driver as a value
  // ---------------------------------------------------------------------------

  /** The plan table, with what was stored under each id and the events accepted for it. */
  datatype Driver = Driver(
    plans: map<PlanId, Plan>,
    stored: map<PlanId, seq<UpdateState>>,
    events: map<PlanId, seq<PhaseEvent>>)

  const EMPTY := Driver(map[], map[], map[])

  function Log<T>(m: map<PlanId, seq<T>>, id: PlanId): seq<T> {
    if id in m then m[id] else []
  }

  function Store(d: Driver, p: Plan): Driver {
    d.(plans := d.plans[p.id := p], stored := d.stored[p.id := Log(d.stored, p.id) + [p.state]])
  }

  function Emit(d: Driver, id: PlanId, event: PhaseEvent, emission: Emission): Driver {
    if emission.Accepted? then d.(events := d.events[id := Log(d.events, id) + [event]]) else d
  }

  /** An operation of the driver. The clock readings, the verification result and the outcome of
      the emission are inputs. */
  datatype Op =
    | PlanUpdate(id: PlanId, req: PlanRequest, createdAt: int, changedAt: int)
    | Execute(id: PlanId, t1: int, t2: int, emission: Emission)
    | Verify(id: PlanId, hashMatch: bool, t1: int, t2: int, emission: Emission)
    | Activate(id: PlanId, t1: int, t2: int, emission: Emission)
    | Rollback(id: PlanId, reason: RollbackReason, t1: int, t2: int, emission: Emission)

  function NewPlan(id: PlanId, req: PlanRequest, createdAt: int, changedAt: int): Plan {
    Plan(id, req.packageId, req.fromVersion, req.toVersion, Planned, None, createdAt, changedAt)
  }

  /** The state an operation stores first. */
  function During(op: Op): UpdateState {
    match op
    case PlanUpdate(_, _, _, _) => Planned
    case Execute(_, _, _, _) => Executing
    case Verify(_, _, _, _, _) => Verifying
    case Activate(_, _, _, _) => Activating
    case Rollback(_, _, _, _, _) => RollingBack
  }

  /** The state it stores last. */
  function After(op: Op): UpdateState {
    match op
    case PlanUpdate(_, _, _, _) => Planned
    case Execute(_, _, _, _) => Executed
    case Verify(_, hashMatch, _, _, _) => if hashMatch then Verified else Failed
    case Activate(_, _, _, _) => Active
    case Rollback(_, _, _, _, _) => RolledBack
  }

  function EventOf(op: Op): PhaseEvent
    requires !op.PlanUpdate?
  {
    match op
    case Execute(_, _, _, _) => ExecutedEvent
    case Verify(_, hashMatch, _, _, _) => if hashMatch then VerifiedEvent else FailedEvent(VerifyMismatch)
    case Activate(_, _, _, _) => ActivatedEvent
    case Rollback(_, reason, _, _, _) => RolledBackEvent(reason)
  }

  /** Does the operation find its plan in a state it can start from? */
  predicate CanStart(d: Driver, op: Op)
    requires !op.PlanUpdate?
  {
    op.id in d.plans && IsLegal(d.plans[op.id].state, During(op))
  }

  /** Why an operation reports an error. A rejected emission is reported after the plan moved. */
  function Refusal(d: Driver, op: Op): Error
    requires !op.PlanUpdate?
  {
    if op.id !in d.plans then PlanNotFound(op.id)
    else if !CanStart(d, op) then InvalidTransition(d.plans[op.id].state, During(op))
    else EmitFailed
  }

  /** The plan as the operation leaves it. */
  function Outcome(p: Plan, op: Op): Plan
    requires !op.PlanUpdate?
  {
    p.(state := After(op), stateChangedAt := op.t2,
       failureClass := if op.Verify? && !op.hashMatch then Some(VerifyMismatch) else p.failureClass)
  }

  /** The plan as the operation stores it first. */
  function Started(p: Plan, op: Op): Plan
    requires !op.PlanUpdate?
  {
    p.(state := During(op), stateChangedAt := op.t1)
  }

  /** The three sections that follow loading: two stores of the loaded plan, then the emission. */
  function Complete(d: Driver, p: Plan, op: Op): Driver
    requires !op.PlanUpdate?
  {
    Emit(Store(Store(d, Started(p, op)), Outcome(p, op)), p.id, EventOf(op), op.emission)
  }

  function Apply(d: Driver, op: Op): Driver {
    if op.PlanUpdate? then
      if op.req.dryRun then d else Store(d, NewPlan(op.id, op.req, op.createdAt, op.changedAt))
    else if CanStart(d, op) then Complete(d, d.plans[op.id], op)
    else d
  }

  // ---------------------------------------------------------------------------
  // The driver
  // ---------------------------------------------------------------------------

  /** Every plan is filed under its own id. */
  ghost predicate FiledById(d: Driver) {
    forall id :: id in d.plans ==> d.plans[id].id == id
  }

  /** The plan has the package and the versions that were asked for. */
  predicate Carries(p: Plan, req: PlanRequest) {
    p.packageId == req.packageId && p.fromVersion == req.fromVersion && p.toVersion == req.toVersion
  }

  /** The operation moves the plan if it finds it in one of the states `from`: it stores it as `during`
      and then as `after`, at the time `at`, and logs the event if that is accepted. Nothing else
      changes, and nothing at all if it does not find it there. */
  ghost predicate Moves(d: Driver, d': Driver, id: PlanId, from: set<UpdateState>, during: UpdateState,
                        after: UpdateState, at: int, event: PhaseEvent, emission: Emission)
  {
    if id in d.plans && d.plans[id].state in from then
      var p := d.plans[id];
      && d'.plans == d.plans[id := p.(state := after, stateChangedAt := at,
                                      failureClass := if after == Failed then Some(VerifyMismatch) else p.failureClass)]
      && d'.stored == d.stored[id := Log(d.stored, id) + [during, after]]
      && d'.events == if emission == Accepted then d.events[id := Log(d.events, id) + [event]] else d.events
    else d' == d
  }

  /** Why an operation that starts from the states `from` reports an error, if it does. */
  function Answer(d: Driver, id: PlanId, from: set<UpdateState>, during: UpdateState, emission: Emission)
    : Option<Error>
  {
    if id !in d.plans then Some(PlanNotFound(id))
    else if d.plans[id].state !in from then Some(InvalidTransition(d.plans[id].state, during))
    else if emission == Rejected then Some(EmitFailed)
    else None
  }

  /** The table after an operation that starts. */
  lemma AppliedIs(d: Driver, op: Op)
    requires !op.PlanUpdate? && FiledById(d) && CanStart(d, op)
    ensures Apply(d, op) ==
            Driver(d.plans[op.id := Outcome(d.plans[op.id], op)],
                   d.stored[op.id := Log(d.stored, op.id) + [During(op), After(op)]],
                   if op.emission.Accepted? then d.events[op.id := Log(d.events, op.id) + [EventOf(op)]] else d.events)
  {
    var h := Log(d.stored, op.id);
    assert h + [During(op)] + [After(op)] == h + [During(op), After(op)];
  }

  /** The answer is what the operation reports: nothing if it starts and its event is not rejected. */
  ghost predicate Answers(d: Driver, op: Op, answer: Option<Error>)
    requires !op.PlanUpdate?
  {
    answer == if CanStart(d, op) && !op.emission.Rejected? then None else Some(Refusal(d, op))
  }

  /** Moving a plan keeps the table filed by id and what its plans carry. */
  lemma MovesKeep(d: Driver, d': Driver, id: PlanId, from: set<UpdateState>, during: UpdateState, after: UpdateState,
                  at: int, event: PhaseEvent, emission: Emission, requests: map<PlanId, PlanRequest>)
    requires Moves(d, d', id, from, during, after, at, event, emission) && FiledById(d)
    requires forall i :: i in d.plans ==> i in requests && Carries(d.plans[i], requests[i])
    ensures FiledById(d') && forall i :: i in d'.plans ==> i in requests && Carries(d'.plans[i], requests[i])
  {
  }

  // The states that each operation starts from, passes through and ends in, and what it reports.
  lemma ExecuteMoves(d: Driver, id: PlanId, t1: int, t2: int, emission: Emission)
    requires FiledById(d)
    ensures Moves(d, Apply(d, Execute(id, t1, t2, emission)), id, {Planned}, Executing, Executed, t2,
                  ExecutedEvent, emission)
    ensures Answers(d, Execute(id, t1, t2, emission), Answer(d, id, {Planned}, Executing, emission))
  {
    if CanStart(d, Execute(id, t1, t2, emission)) {
      AppliedIs(d, Execute(id, t1, t2, emission));
    }
  }

  lemma VerifyMoves(d: Driver, id: PlanId, hashMatch: bool, t1: int, t2: int, emission: Emission)
    requires FiledById(d)
    ensures Moves(d, Apply(d, Verify(id, hashMatch, t1, t2, emission)), id, {Executed}, Verifying,
                  if hashMatch then Verified else Failed, t2,
                  if hashMatch then VerifiedEvent else FailedEvent(VerifyMismatch), emission)
    ensures Answers(d, Verify(id, hashMatch, t1, t2, emission), Answer(d, id, {Executed}, Verifying, emission))
  {
    if CanStart(d, Verify(id, hashMatch, t1, t2, emission)) {
      AppliedIs(d, Verify(id, hashMatch, t1, t2, emission));
    }
  }

  lemma ActivateMoves(d: Driver, id: PlanId, t1: int, t2: int, emission: Emission)
    requires FiledById(d)
    ensures Moves(d, Apply(d, Activate(id, t1, t2, emission)), id, {Verified}, Activating, Active, t2,
                  ActivatedEvent, emission)
    ensures Answers(d, Activate(id, t1, t2, emission), Answer(d, id, {Verified}, Activating, emission))
  {
    if CanStart(d, Activate(id, t1, t2, emission)) {
      AppliedIs(d, Activate(id, t1, t2, emission));
    }
  }

  lemma RollbackMoves(d: Driver, id: PlanId, reason: RollbackReason, t1: int, t2: int, emission: Emission)
    requires FiledById(d)
    ensures Moves(d, Apply(d, Rollback(id, reason, t1, t2, emission)), id, {Executed, Verified, Failed, Active},
                  RollingBack, RolledBack, t2, RolledBackEvent(reason), emission)
    ensures Answers(d, Rollback(id, reason, t1, t2, emission),
                    Answer(d, id, {Executed, Verified, Failed, Active}, RollingBack, emission))
  {
    if CanStart(d, Rollback(id, reason, t1, t2, emission)) {
      AppliedIs(d, Rollback(id, reason, t1, t2, emission));
    }
  }

  class InMemoryUpdateDriver {
    var plans: map<PlanId, Plan>
    ghost var stored: map<PlanId, seq<UpdateState>>
    ghost var events: map<PlanId, seq<PhaseEvent>>
    /** What was asked for when the plan was made. */
    ghost var requests: map<PlanId, PlanRequest>

    ghost function View(): Driver
      reads this
    {
      Driver(plans, stored, events)
    }

    /** Every plan is filed under its id and carries the request it was made for. */
    ghost predicate Valid()
      reads this
    {
      FiledById(View()) && forall id :: id in plans ==> id in requests && Carries(plans[id], requests[id])
    }

    constructor ()
      ensures Valid() && View() == EMPTY
    {
      plans, stored, events, requests := map[], map[], map[], map[];
    }

    method LoadPlan(id: PlanId) returns (r: Result<Plan, Error>)
      ensures r == if id in plans then Ok(plans[id]) else Err(PlanNotFound(id))
    {
      r := if id in plans then Ok(plans[id]) else Err(PlanNotFound(id));
    }

    method StorePlan(p: Plan)
      modifies this`plans, this`stored
      ensures View() == Store(old(View()), p)
    {
      plans := plans[p.id := p];
      stored := stored[p.id := Log(stored, p.id) + [p.state]];
    }

    method EmitEvent(id: PlanId, event: PhaseEvent, emission: Emission) returns (ok: bool)
      modifies this`events
      ensures View() == Emit(old(View()), id, event, emission)
      ensures ok <==> !emission.Rejected?
    {
      if emission.Accepted? {
        events := events[id := Log(events, id) + [event]];
      }
      ok := !emission.Rejected?;
    }

    method PlanUpdate(id: PlanId, req: PlanRequest, createdAt: int, changedAt: int) returns (p: Plan)
      requires Valid()
      modifies this
      ensures Valid()
      ensures p == Plan(id, req.packageId, req.fromVersion, req.toVersion, Planned, None, createdAt, changedAt)
      ensures View() == Apply(old(View()), Op.PlanUpdate(id, req, createdAt, changedAt))
      ensures plans == if req.dryRun then old(plans) else old(plans)[id := p]
      ensures requests == if req.dryRun then old(requests) else old(requests)[id := req]
    {
      p := Plan(id, req.packageId, req.fromVersion, req.toVersion, Planned, None, createdAt, changedAt);
      if !req.dryRun {
        StorePlan(p);
        requests := requests[id := req];
      }
    }

    /** Executing, activating and rolling back: two transitions, each stored, then the event.
        `r` is the plan's source version, which a rollback reports. */
    method TwoSteps(op: Op) returns (r: Result<string, Error>)
      requires op.Execute? || op.Activate? || op.Rollback?
      modifies this`plans, this`stored, this`events
      ensures View() == Apply(old(View()), op)
      ensures r.Ok? <==> CanStart(old(View()), op) && !op.emission.Rejected?
      ensures r.Ok? ==> r.value == old(plans)[op.id].fromVersion
      ensures r.Err? ==> r.error == Refusal(old(View()), op)
    {
      var loaded := LoadPlan(op.id);
      if loaded.Err? {
        return Err(loaded.error);
      }
      var plan := loaded.value;
      var revertTo := plan.fromVersion;
      var first := Transition(plan, During(op), op.t1);
      if first.Err? {
        return Err(first.error);
      }
      plan := first.value;
      StorePlan(plan);
      var second := Transition(plan, After(op), op.t2);
      assert second.Ok?;
      plan := second.value;
      StorePlan(plan);
      var ok := EmitEvent(plan.id, EventOf(op), op.emission);
      r := if ok then Ok(revertTo) else Err(EmitFailed);
    }

    method ExecuteUpdate(id: PlanId, t1: int, t2: int, emission: Emission) returns (r: Result<(), Error>)
      requires Valid()
      modifies this`plans, this`stored, this`events
      ensures Valid()
      ensures View() == Apply(old(View()), Execute(id, t1, t2, emission))
      ensures Moves(old(View()), View(), id, {Planned}, Executing, Executed, t2, ExecutedEvent, emission)
      ensures var answer := Answer(old(View()), id, {Planned}, Executing, emission);
              r == if answer.Some? then Err(answer.value) else Ok(())
    {
      ExecuteMoves(View(), id, t1, t2, emission);
      MovesKeep(View(), Apply(View(), Execute(id, t1, t2, emission)), id, {Planned}, Executing, Executed, t2,
                ExecutedEvent, emission, requests);
      var done := TwoSteps(Execute(id, t1, t2, emission));
      r := if done.Ok? then Ok(()) else Err(done.error);
    }

    method ActivateUpdate(id: PlanId, t1: int, t2: int, emission: Emission) returns (r: Result<(), Error>)
      requires Valid()
      modifies this`plans, this`stored, this`events
      ensures Valid()
      ensures View() == Apply(old(View()), Activate(id, t1, t2, emission))
      ensures Moves(old(View()), View(), id, {Verified}, Activating, Active, t2, ActivatedEvent, emission)
      ensures var answer := Answer(old(View()), id, {Verified}, Activating, emission);
              r == if answer.Some? then Err(answer.value) else Ok(())
    {
      ActivateMoves(View(), id, t1, t2, emission);
      MovesKeep(View(), Apply(View(), Activate(id, t1, t2, emission)), id, {Verified}, Activating, Active, t2,
                ActivatedEvent, emission, requests);
      var done := TwoSteps(Activate(id, t1, t2, emission));
      r := if done.Ok? then Ok(()) else Err(done.error);
    }

    /** On success the result is the version reverted to: the one that the plan was made to leave. */
    method RollbackUpdate(id: PlanId, reason: RollbackReason, t1: int, t2: int, emission: Emission)
      returns (r: Result<string, Error>)
      requires Valid()
      modifies this`plans, this`stored, this`events
      ensures Valid()
      ensures View() == Apply(old(View()), Rollback(id, reason, t1, t2, emission))
      ensures Moves(old(View()), View(), id, {Executed, Verified, Failed, Active}, RollingBack, RolledBack, t2,
                    RolledBackEvent(reason), emission)
      ensures var answer := Answer(old(View()), id, {Executed, Verified, Failed, Active}, RollingBack, emission);
              if answer.Some? then r == Err(answer.value) else id in requests && r == Ok(requests[id].fromVersion)
    {
      RollbackMoves(View(), id, reason, t1, t2, emission);
      MovesKeep(View(), Apply(View(), Rollback(id, reason, t1, t2, emission)), id, {Executed, Verified, Failed, Active},
                RollingBack, RolledBack, t2, RolledBackEvent(reason), emission, requests);
      r := TwoSteps(Rollback(id, reason, t1, t2, emission));
    }

    /** Verification has two outcomes; a mismatch is recorded in the plan before it fails. */
    method VerifySteps(op: Op) returns (r: Result<bool, Error>)
      requires op.Verify?
      modifies this`plans, this`stored, this`events
      ensures View() == Apply(old(View()), op)
      ensures r.Ok? <==> CanStart(old(View()), op) && !op.emission.Rejected?
      ensures r.Ok? ==> r.value == op.hashMatch
      ensures r.Err? ==> r.error == Refusal(old(View()), op)
    {
      var loaded := LoadPlan(op.id);
      if loaded.Err? {
        return Err(loaded.error);
      }
      var plan := loaded.value;
      var first := Transition(plan, Verifying, op.t1);
      if first.Err? {
        return Err(first.error);
      }
      plan := first.value;
      StorePlan(plan);
      if op.hashMatch {
        var second := Transition(plan, Verified, op.t2);
        assert second.Ok?;
        plan := second.value;
      } else {
        plan := plan.(failureClass := Some(VerifyMismatch));
        var second := Transition(plan, Failed, op.t2);
        assert second.Ok?;
        plan := second.value;
      }
      StorePlan(plan);
      var phase := if op.hashMatch then VerifiedEvent else FailedEvent(VerifyMismatch);
      var ok := EmitEvent(plan.id, phase, op.emission);
      r := if ok then Ok(op.hashMatch) else Err(EmitFailed);
    }

    method VerifyUpdate(id: PlanId, hashMatch: bool, t1: int, t2: int, emission: Emission)
      returns (r: Result<bool, Error>)
      requires Valid()
      modifies this`plans, this`stored, this`events
      ensures Valid()
      ensures View() == Apply(old(View()), Verify(id, hashMatch, t1, t2, emission))
      ensures Moves(old(View()), View(), id, {Executed}, Verifying, if hashMatch then Verified else Failed, t2,
                    if hashMatch then VerifiedEvent else FailedEvent(VerifyMismatch), emission)
      ensures var answer := Answer(old(View()), id, {Executed}, Verifying, emission);
              r == if answer.Some? then Err(answer.value) else Ok(hashMatch)
    {
      VerifyMoves(View(), id, hashMatch, t1, t2, emission);
      MovesKeep(View(), Apply(View(), Verify(id, hashMatch, t1, t2, emission)), id, {Executed}, Verifying,
                if hashMatch then Verified else Failed, t2,
                if hashMatch then VerifiedEvent else FailedEvent(VerifyMismatch), emission, requests);
      r := VerifySteps(Verify(id, hashMatch, t1, t2, emission));
    }
  }

  // ---------------------------------------------------------------------------
  // Runs
  // ---------------------------------------------------------------------------

  function Run(d: Driver, ops: seq<Op>): Driver
    decreases |ops|
  {
    if ops == [] then d else Run(Apply(d, ops[0]), ops[1..])
  }

  lemma {:induction false} RunAppend(d: Driver, ops: seq<Op>, op: Op)
    ensures Run(d, ops + [op]) == Apply(Run(d, ops), op)
    decreases |ops|
  {
    if ops == [] {
      assert ops + [op] == [op];
    } else {
      RunAppend(Apply(d, ops[0]), ops[1..], op);
      assert (ops + [op])[1..] == ops[1..] + [op];
    }
  }

  /** No two plans, dry runs included, are given the same id. */
  ghost predicate UniqueIds(ops: seq<Op>) {
    forall i, j :: 0 <= i < j < |ops| && ops[i].PlanUpdate? && ops[j].PlanUpdate? ==> ops[i].id != ops[j].id
  }

  /** No plan is given the id. */
  ghost predicate NeverPlans(ops: seq<Op>, id: PlanId) {
    forall i :: 0 <= i < |ops| && ops[i].PlanUpdate? ==> ops[i].id != id
  }

  /** States stored one after the other: from Planned, along legal edges. */
  ghost predicate LegalHistory(h: seq<UpdateState>) {
    && h != [] && h[0] == Planned
    && forall i :: 0 < i < |h| ==> IsLegal(h[i - 1], h[i])
  }

  /** The rank rises along a legal history, so it has at most eight changes. */
  lemma {:induction false} HistoryRises(h: seq<UpdateState>, i: nat, j: nat)
    requires LegalHistory(h) && i < j < |h|
    ensures Rank(h[i]) < Rank(h[j]) && Rank(h[i]) + (j - i) <= Rank(h[j])
  {
    assert IsLegal(h[j - 1], h[j]);
    if i < j - 1 {
      HistoryRises(h, i, j - 1);
    }
  }

  lemma HistoryIsShort(h: seq<UpdateState>)
    requires LegalHistory(h)
    ensures |h| <= 9
  {
    if |h| > 9 {
      HistoryRises(h, 0, 9);
    }
  }

  const ACTIVE_PATH := [Planned, Executing, Executed, Verifying, Verified, Activating, Active]

  /** Active is reached by one path only: through Executed, then Verified. */
  lemma {:induction false} ActiveNeedsFullPath(h: seq<UpdateState>, k: nat, rest: nat)
    requires LegalHistory(h) && k < |h| && rest <= 6 && h[k] == ACTIVE_PATH[rest]
    ensures k == rest && h[..k + 1] == ACTIVE_PATH[..rest + 1]
  {
    assert k > 0 ==> IsLegal(h[k - 1], h[k]);
    if rest > 0 {
      ActiveNeedsFullPath(h, k - 1, rest - 1);
      assert h[..k + 1] == h[..k] + [h[k]];
      assert ACTIVE_PATH[..rest + 1] == ACTIVE_PATH[..rest] + [ACTIVE_PATH[rest]];
    }
  }

  lemma HistoryWithActive(h: seq<UpdateState>, k: nat)
    requires LegalHistory(h) && k < |h| && h[k] == Active
    ensures h[..k + 1] == ACTIVE_PATH
  {
    ActiveNeedsFullPath(h, k, 6);
    assert ACTIVE_PATH[..7] == ACTIVE_PATH;
  }

  // ---------------------------------------------------------------------------
  // What an operation does to its plan and to others
  // ---------------------------------------------------------------------------

  ghost predicate SameEntry<T(!new)>(m: map<PlanId, T>, m': map<PlanId, T>, id: PlanId) {
    (id in m <==> id in m') && (id in m ==> m[id] == m'[id])
  }

  /** Two tables agree on a plan: on what is stored, on its history and on its events. */
  ghost predicate SameAt(d: Driver, d': Driver, id: PlanId) {
    && SameEntry(d.plans, d'.plans, id) && SameEntry(d.stored, d'.stored, id) && SameEntry(d.events, d'.events, id)
  }

  /** A store and an emission change what tables say about their own plan alone, and change it in
      the same way in tables that agree on it. */
  lemma StoreSame(d: Driver, d': Driver, p: Plan, id: PlanId)
    requires SameAt(d, d', id)
    ensures SameAt(Store(d, p), Store(d', p), id)
    ensures p.id != id ==> SameAt(Store(d, p), d', id) && SameAt(d, Store(d', p), id)
  {
  }

  lemma EmitSame(d: Driver, d': Driver, plan: PlanId, e: PhaseEvent, emission: Emission, id: PlanId)
    requires SameAt(d, d', id)
    ensures SameAt(Emit(d, plan, e, emission), Emit(d', plan, e, emission), id)
    ensures plan != id ==> SameAt(Emit(d, plan, e, emission), d', id) && SameAt(d, Emit(d', plan, e, emission), id)
  {
  }

  /** An operation done from start to end leaves other plans alone. */
  lemma ApplyElsewhere(d: Driver, op: Op, id: PlanId)
    requires op.id != id && (!op.PlanUpdate? && op.id in d.plans ==> d.plans[op.id].id == op.id)
    ensures SameAt(d, Apply(d, op), id)
  {
    if op.PlanUpdate? {
      StoreSame(d, d, NewPlan(op.id, op.req, op.createdAt, op.changedAt), id);
    } else if CanStart(d, op) {
      var p := d.plans[op.id];
      StoreSame(d, d, Started(p, op), id);
      StoreSame(d, Store(d, Started(p, op)), Outcome(p, op), id);
      EmitSame(d, Store(Store(d, Started(p, op)), Outcome(p, op)), p.id, EventOf(op), op.emission, id);
    }
  }

  /** What completing an operation leaves of its plan. */
  lemma CompleteLogs(d: Driver, p: Plan, op: Op)
    requires !op.PlanUpdate?
    ensures Complete(d, p, op).plans == d.plans[p.id := Outcome(p, op)]
    ensures Log(Complete(d, p, op).stored, p.id) == Log(d.stored, p.id) + [During(op), After(op)]
    ensures Log(Complete(d, p, op).events, p.id) ==
            Log(d.events, p.id) + if op.emission.Accepted? then [EventOf(op)] else []
  {
    assert Log(d.stored, p.id) + [During(op)] + [After(op)] == Log(d.stored, p.id) + [During(op), After(op)];
    assert Log(d.events, p.id) + [] == Log(d.events, p.id);
  }

  // ---------------------------------------------------------------------------
  // What every run keeps
  // ---------------------------------------------------------------------------

  function EventRank(e: PhaseEvent): nat {
    match e
    case ExecutedEvent => Rank(Executed)
    case VerifiedEvent => Rank(Verified)
    case FailedEvent(_) => Rank(Failed)
    case ActivatedEvent => Rank(Active)
    case RolledBackEvent(_) => Rank(RolledBack)
  }

  /** The events of a plan come in phase order, none twice, and none ahead of the plan. */
  ghost predicate EventsOrdered(es: seq<PhaseEvent>, s: UpdateState) {
    && (forall i, j :: 0 <= i < j < |es| ==> EventRank(es[i]) < EventRank(es[j]))
    && forall i :: 0 <= i < |es| ==> EventRank(es[i]) <= Rank(s)
  }

  /** States a plan can be found in between operations. */
  predicate AtRest(s: UpdateState) {
    s.Planned? || s.Executed? || s.Verified? || s.Failed? || s.Active? || s.RolledBack?
  }

  /** What is stored about a plan: its history is legal and ends in its state, the failure class is
      set exactly when it failed, and its events came in order. */
  ghost predicate Tidy(d: Driver, id: PlanId) {
    if id in d.plans then
      var p, h := d.plans[id], Log(d.stored, id);
      && p.id == id
      && LegalHistory(h) && h[|h| - 1] == p.state
      && (p.failureClass == if Failed in h then Some(VerifyMismatch) else None)
      && EventsOrdered(Log(d.events, id), p.state)
    else
      Log(d.stored, id) == [] && Log(d.events, id) == []
  }

  ghost predicate Kept(d: Driver, id: PlanId) {
    Tidy(d, id) && (id in d.plans ==> AtRest(d.plans[id].state))
  }

  lemma LegalGrows(h: seq<UpdateState>, to: UpdateState)
    requires LegalHistory(h) && IsLegal(h[|h| - 1], to)
    ensures LegalHistory(h + [to])
  {
    var h' := h + [to];
    forall i | 0 < i < |h'|
      ensures IsLegal(h'[i - 1], h'[i])
    {
      if i < |h| {
        assert h'[i - 1] == h[i - 1] && h'[i] == h[i];
      }
    }
  }

  /** What is kept about a plan depends on its own entries alone. */
  lemma TidySame(d: Driver, d': Driver, id: PlanId)
    requires SameAt(d, d', id) && Tidy(d, id)
    ensures Tidy(d', id) && (Kept(d, id) ==> Kept(d', id))
  {
  }

  /** A tidy plan stored in a next state is tidy. */
  lemma StoreIsTidy(d: Driver, p: Plan)
    requires Tidy(d, p.id) && p.id in d.plans && IsLegal(d.plans[p.id].state, p.state)
    requires p.failureClass == if p.state.Failed? then Some(VerifyMismatch) else d.plans[p.id].failureClass
    ensures Tidy(Store(d, p), p.id)
  {
    LegalGrows(Log(d.stored, p.id), p.state);
  }

  /** Reporting the state that a plan has reached keeps it tidy, if `s` was its state when the last
      event came. */
  lemma EmitIsTidy(d: Driver, id: PlanId, s: UpdateState, e: PhaseEvent, emission: Emission)
    requires Tidy(d, id) && id in d.plans && EventsOrdered(Log(d.events, id), s)
    requires Rank(s) < Rank(d.plans[id].state) == EventRank(e)
    ensures Tidy(Emit(d, id, e, emission), id)
  {
  }

  /** An operation that starts stores two legal states and reports the second one. */
  lemma StartedStep(d: Driver, op: Op)
    requires !op.PlanUpdate? && CanStart(d, op) && Kept(d, op.id)
    ensures Kept(Apply(d, op), op.id)
  {
    var p := d.plans[op.id];
    var d1 := Store(d, Started(p, op));
    StoreIsTidy(d, Started(p, op));
    StoreIsTidy(d1, Outcome(p, op));
    EmitIsTidy(Store(d1, Outcome(p, op)), op.id, p.state, EventOf(op), op.emission);
  }

  lemma PlannedIsKept(d: Driver, op: Op)
    requires op.PlanUpdate? && Kept(d, op.id) && op.id !in d.plans
    ensures Kept(Apply(d, op), op.id)
  {
  }

  lemma KeptStep(d: Driver, op: Op, id: PlanId)
    requires Kept(d, id)
    requires op.PlanUpdate? && op.id == id ==> id !in d.plans
    requires !op.PlanUpdate? && op.id in d.plans ==> d.plans[op.id].id == op.id
    ensures Kept(Apply(d, op), id)
    ensures id in d.plans ==> id in Apply(d, op).plans
    ensures Log(d.stored, id) <= Log(Apply(d, op).stored, id)
  {
    if op.id != id {
      ApplyElsewhere(d, op, id);
      TidySame(d, Apply(d, op), id);
    } else if op.PlanUpdate? {
      PlannedIsKept(d, op);
    } else if CanStart(d, op) {
      StartedStep(d, op);
      CompleteLogs(d, d.plans[op.id], op);
    }
  }

  lemma {:induction false} KeptRun(d: Driver, ops: seq<Op>)
    requires forall id :: Kept(d, id)
    requires UniqueIds(ops)
    requires forall i :: 0 <= i < |ops| && ops[i].PlanUpdate? ==> ops[i].id !in d.plans
    ensures forall id :: Kept(Run(d, ops), id)
    ensures forall id :: Log(d.stored, id) <= Log(Run(d, ops).stored, id)
    decreases |ops|
  {
    if ops != [] {
      var d' := Apply(d, ops[0]);
      assert Kept(d, ops[0].id);
      forall id
        ensures Kept(d', id) && Log(d.stored, id) <= Log(d'.stored, id)
      {
        KeptStep(d, ops[0], id);
      }
      forall i | 0 <= i < |ops[1..]| && ops[1..][i].PlanUpdate?
        ensures ops[1..][i].id !in d'.plans
      {
        assert ops[1..][i] == ops[i + 1];
      }
      KeptRun(d', ops[1..]);
    }
  }

  /** After any run of operations, each done before the next: a plan was stored in legal states of
      rising rank, in at most nine of them, ends at rest, carries a failure class exactly when it
      failed verification, and its events came in phase order, none twice. */
  lemma PlanAfterRun(ops: seq<Op>, id: PlanId)
    requires UniqueIds(ops) && id in Run(EMPTY, ops).plans
    ensures var d := Run(EMPTY, ops);
            var p, h := d.plans[id], Log(d.stored, id);
            && LegalHistory(h) && |h| <= 9 && h[|h| - 1] == p.state && AtRest(p.state)
            && (forall i, j :: 0 <= i < j < |h| ==> Rank(h[i]) < Rank(h[j]))
            && (forall k :: 0 <= k < |h| && h[k] == Active ==> h[..k + 1] == ACTIVE_PATH)
            && (p.failureClass == if Failed in h then Some(VerifyMismatch) else None)
            && EventsOrdered(Log(d.events, id), p.state)
  {
    KeptRun(EMPTY, ops);
    var h := Log(Run(EMPTY, ops).stored, id);
    assert Kept(Run(EMPTY, ops), id);
    HistoryIsShort(h);
    forall i, j | 0 <= i < j < |h|
      ensures Rank(h[i]) < Rank(h[j])
    {
      HistoryRises(h, i, j);
    }
    forall k | 0 <= k < |h| && h[k] == Active
      ensures h[..k + 1] == ACTIVE_PATH
    {
      HistoryWithActive(h, k);
    }
  }

  /** The one entry of the table that an operation writes. */
  lemma ApplyPlans(d: Driver, op: Op)
    requires FiledById(d)
    ensures Apply(d, op).plans ==
            if op.PlanUpdate? then
              if op.req.dryRun then d.plans else d.plans[op.id := NewPlan(op.id, op.req, op.createdAt, op.changedAt)]
            else if CanStart(d, op) then d.plans[op.id := Outcome(d.plans[op.id], op)]
            else d.plans
    ensures FiledById(Apply(d, op))
  {
  }

  lemma FinalStep(d: Driver, op: Op, id: PlanId)
    requires FiledById(d) && (op.PlanUpdate? ==> op.id != id)
    requires id in d.plans && (d.plans[id].state.RolledBack? || d.plans[id].state.RollbackFailed?)
    ensures FiledById(Apply(d, op))
    ensures id in Apply(d, op).plans && Apply(d, op).plans[id] == d.plans[id]
  {
    ApplyPlans(d, op);
  }

  /** A rolled-back plan is never changed again, whatever is asked of it. */
  lemma {:induction false} RolledBackIsFinal(d: Driver, ops: seq<Op>, id: PlanId)
    requires FiledById(d) && NeverPlans(ops, id)
    requires id in d.plans && (d.plans[id].state.RolledBack? || d.plans[id].state.RollbackFailed?)
    ensures id in Run(d, ops).plans && Run(d, ops).plans[id] == d.plans[id]
    decreases |ops|
  {
    if ops != [] {
      FinalStep(d, ops[0], id);
      RolledBackIsFinal(Apply(d, ops[0]), ops[1..], id);
    }
  }

  /** The ids of the plans that were made to be kept. */
  ghost function PersistedIds(ops: seq<Op>): set<PlanId> {
    set i | 0 <= i < |ops| && ops[i].PlanUpdate? && !ops[i].req.dryRun :: ops[i].id
  }

  lemma {:induction false} RunKeys(d: Driver, ops: seq<Op>)
    requires FiledById(d)
    ensures Run(d, ops).plans.Keys == d.plans.Keys + PersistedIds(ops)
    decreases |ops|
  {
    if ops != [] {
      var d', rest := Apply(d, ops[0]), ops[1..];
      ApplyPlans(d, ops[0]);
      RunKeys(d', rest);
      forall id | id in PersistedIds(ops)
        ensures id in d'.plans.Keys + PersistedIds(rest)
      {
        var i :| 0 <= i < |ops| && ops[i].PlanUpdate? && !ops[i].req.dryRun && ops[i].id == id;
        if i > 0 {
          assert rest[i - 1] == ops[i];
        }
      }
      forall id | id in PersistedIds(rest)
        ensures id in PersistedIds(ops)
      {
        var i :| 0 <= i < |rest| && rest[i].PlanUpdate? && !rest[i].req.dryRun && rest[i].id == id;
        assert ops[i + 1] == rest[i];
      }
    } else {
      assert PersistedIds(ops) == {};
    }
  }

  /** The plans that can be loaded are exactly the ones not made as a dry run; a dry-run plan is
      never retrievable. */
  lemma DryRunsAreNotStored(ops: seq<Op>, k: nat)
    requires UniqueIds(ops) && k < |ops| && ops[k].PlanUpdate?
    ensures ops[k].id in Run(EMPTY, ops).plans <==> !ops[k].req.dryRun
  {
    RunKeys(EMPTY, ops);
    if i :| 0 <= i < |ops| && ops[i].PlanUpdate? && !ops[i].req.dryRun && ops[i].id == ops[k].id {
      assert i == k;
    }
  }

  // ---------------------------------------------------------------------------
  // What a plan carries
  // ---------------------------------------------------------------------------

  /** The plan was made for the request, at the time. */
  ghost predicate MadeFor(p: Plan, req: PlanRequest, createdAt: int) {
    Carries(p, req) && p.createdAt == createdAt
  }

  lemma {:induction false} RunKeepsRequest(d: Driver, ops: seq<Op>, id: PlanId, req: PlanRequest, createdAt: int)
    requires FiledById(d) && NeverPlans(ops, id) && id in d.plans && MadeFor(d.plans[id], req, createdAt)
    ensures id in Run(d, ops).plans && MadeFor(Run(d, ops).plans[id], req, createdAt)
    decreases |ops|
  {
    if ops != [] {
      ApplyPlans(d, ops[0]);
      assert ops[0].PlanUpdate? ==> ops[0].id != id;
      RunKeepsRequest(Apply(d, ops[0]), ops[1..], id, req, createdAt);
    }
  }

  lemma {:induction false} RunFiled(d: Driver, ops: seq<Op>)
    requires FiledById(d)
    ensures FiledById(Run(d, ops))
    decreases |ops|
  {
    if ops != [] {
      ApplyPlans(d, ops[0]);
      RunFiled(Apply(d, ops[0]), ops[1..]);
    }
  }

  lemma {:induction false} RunSplits(d: Driver, ops: seq<Op>, k: nat)
    requires k <= |ops|
    ensures Run(d, ops) == Run(Run(d, ops[..k]), ops[k..])
    decreases |ops|
  {
    if k > 0 {
      RunSplits(Apply(d, ops[0]), ops[1..], k - 1);
      assert ops[..k][1..] == ops[1..][..k - 1] && ops[1..][k - 1..] == ops[k..];
    } else {
      assert ops[..0] == [] && ops[0..] == ops;
    }
  }

  /** After any run, a plan that was made to be kept has the package, the source version, the target
      version and the creation time it was made with. So a rollback, which reports the plan's source
      version, reverts to the version that the request named. */
  lemma PlanCarriesRequest(ops: seq<Op>, k: nat)
    requires UniqueIds(ops) && k < |ops| && ops[k].PlanUpdate? && !ops[k].req.dryRun
    ensures var d, id, req := Run(EMPTY, ops), ops[k].id, ops[k].req;
            && id in d.plans
            && d.plans[id].packageId == req.packageId && d.plans[id].fromVersion == req.fromVersion
            && d.plans[id].toVersion == req.toVersion && d.plans[id].createdAt == ops[k].createdAt
  {
    var d, rest := Run(EMPTY, ops[..k]), ops[k + 1..];
    RunSplits(EMPTY, ops, k);
    RunFiled(EMPTY, ops[..k]);
    assert ops[k..][0] == ops[k] && ops[k..][1..] == rest;
    ApplyPlans(d, ops[k]);
    forall i | 0 <= i < |rest| && rest[i].PlanUpdate?
      ensures rest[i].id != ops[k].id
    {
      assert rest[i] == ops[k + 1 + i];
    }
    RunKeepsRequest(Apply(d, ops[k]), rest, ops[k].id, ops[k].req, ops[k].createdAt);
  }
}
