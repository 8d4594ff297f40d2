/**
 Interleavings of the update driver's operations. An operation loads its plan under the lock and
 works on that copy: it stores the copy twice, each time under the lock, and emits its event. The
 sections of any number of operations interleave, and no store looks at what it replaces.
 */
module UpdateProtocol {
  import opened Wrappers
  import opened UpdateDriver

  type OpId = nat

  /** How far an operation in flight has come, with the plan as it loaded it. */
  datatype Stage =
    | Loaded(op: Op, plan: Plan)
    | Begun(op: Op, plan: Plan)
    | Done(op: Op, plan: Plan)

  datatype State = State(driver: Driver, inFlight: map<OpId, Stage>)

  const INIT := State(EMPTY, map[])

  /** One section: a new plan is stored; an operation loads its plan, and goes on if it can start
      from there; it stores its first state, then its last, then emits and ends. */
  datatype Action =
    | Create(id: PlanId, req: PlanRequest, createdAt: int, changedAt: int)
    | Load(k: OpId, op: Op)
    | StoreFirst(k: OpId)
    | StoreLast(k: OpId)
    | Finish(k: OpId)

  /** Operations in flight while the action happens. */
  function Busy(s: State, a: Action): nat {
    |s.inFlight| + if a.Create? || a.Load? then 1 else 0
  }

  /** An action whose operation is not where the action needs it does nothing. */
  function Next(s: State, a: Action): State {
    match a
    case Create(id, req, createdAt, changedAt) =>
      s.(driver := Apply(s.driver, PlanUpdate(id, req, createdAt, changedAt)))
    case Load(k, op) =>
      if k !in s.inFlight && !op.PlanUpdate? && CanStart(s.driver, op) then
        s.(inFlight := s.inFlight[k := Loaded(op, s.driver.plans[op.id])])
      else s
    case StoreFirst(k) =>
      if k in s.inFlight && s.inFlight[k].Loaded? && !s.inFlight[k].op.PlanUpdate? then
        var st := s.inFlight[k];
        State(Store(s.driver, Started(st.plan, st.op)), s.inFlight[k := Begun(st.op, st.plan)])
      else s
    case StoreLast(k) =>
      if k in s.inFlight && s.inFlight[k].Begun? && !s.inFlight[k].op.PlanUpdate? then
        var st := s.inFlight[k];
        State(Store(s.driver, Outcome(st.plan, st.op)), s.inFlight[k := Done(st.op, st.plan)])
      else s
    case Finish(k) =>
      if k in s.inFlight && s.inFlight[k].Done? && !s.inFlight[k].op.PlanUpdate? then
        var st := s.inFlight[k];
        State(Emit(s.driver, st.plan.id, EventOf(st.op), st.op.emission), s.inFlight - {k})
      else s
  }

  /** A new plan is given an id that the table does not hold. */
  predicate MintsFresh(s: State, a: Action) {
    a.Create? ==> a.id !in s.driver.plans
  }

  /** The operations in flight that work on the plan. */
  function On(inFlight: map<OpId, Stage>, id: PlanId): set<OpId> {
    set k | k in inFlight && inFlight[k].op.id == id
  }

  /** At most `n` operations are in flight while the action happens, and at most `m` of them on the
      plan that it loads. */
  predicate Within(n: nat, m: nat, s: State, a: Action) {
    Busy(s, a) <= n && (a.Load? ==> |On(s.inFlight, a.op.id)| + 1 <= m)
  }

  /** A run within these limits. */
  predicate IsRun(n: nat, m: nat, s: State, acts: seq<Action>)
    decreases |acts|
  {
    acts == [] ||
    (Within(n, m, s, acts[0]) && MintsFresh(s, acts[0]) && IsRun(n, m, Next(s, acts[0]), acts[1..]))
  }

  function Exec(s: State, acts: seq<Action>): State
    decreases |acts|
  {
    if acts == [] then s else Exec(Next(s, acts[0]), acts[1..])
  }

  ghost predicate Reaches(n: nat, m: nat, s: State, s': State) {
    exists acts :: IsRun(n, m, s, acts) && Exec(s, acts) == s'
  }

  lemma {:induction false} ExecAppend(n: nat, m: nat, s: State, acts: seq<Action>, a: Action)
    requires IsRun(n, m, s, acts)
    requires Within(n, m, Exec(s, acts), a) && MintsFresh(Exec(s, acts), a)
    ensures IsRun(n, m, s, acts + [a]) && Exec(s, acts + [a]) == Next(Exec(s, acts), a)
    decreases |acts|
  {
    if acts == [] {
      assert acts + [a] == [a];
    } else {
      ExecAppend(n, m, Next(s, acts[0]), acts[1..], a);
      assert (acts + [a])[1..] == acts[1..] + [a];
    }
  }

  lemma ReachStep(n: nat, m: nat, s: State, s': State, a: Action)
    requires Reaches(n, m, s, s') && Within(n, m, s', a) && MintsFresh(s', a)
    ensures Reaches(n, m, s, Next(s', a))
  {
    var acts :| IsRun(n, m, s, acts) && Exec(s, acts) == s';
    ExecAppend(n, m, s, acts, a);
  }

  lemma ReachHere(n: nat, m: nat, s: State)
    ensures Reaches(n, m, s, s)
  {
    assert IsRun(n, m, s, []) && Exec(s, []) == s;
  }

  // ---------------------------------------------------------------------------
  // What survives overlap
  // ---------------------------------------------------------------------------

  ghost predicate HasSource(h: seq<UpdateState>, k: nat)
    requires k < |h|
  {
    exists i :: 0 <= i < k && IsLegal(h[i], h[k])
  }

  /** Every state but the first follows, by a legal edge, some state stored before it. */
  ghost predicate Grounded(h: seq<UpdateState>) {
    && (h != [] ==> h[0] == Planned)
    && forall k :: 0 < k < |h| ==> HasSource(h, k)
  }

  /** The state an event reports. */
  function Reported(e: PhaseEvent): UpdateState {
    match e
    case ExecutedEvent => Executed
    case VerifiedEvent => Verified
    case FailedEvent(_) => Failed
    case ActivatedEvent => Active
    case RolledBackEvent(_) => RolledBack
  }

  /** The failure class of a plan or of a loaded copy, against what was stored. */
  ghost predicate FairClass(p: Plan, h: seq<UpdateState>) {
    && (p.failureClass.Some? ==> p.failureClass.value == VerifyMismatch && Failed in h)
    && (p.state.Failed? ==> p.failureClass.Some?)
  }

  /** An operation in flight works on a copy that was once stored. */
  ghost predicate StageFits(d: Driver, st: Stage) {
    var h := Log(d.stored, st.op.id);
    && !st.op.PlanUpdate? && st.op.id in d.plans && st.plan.id == st.op.id
    && IsLegal(st.plan.state, During(st.op))
    && st.plan.state in h && FairClass(st.plan, h)
    && (!st.Loaded? ==> During(st.op) in h)
    && (st.Done? ==> After(st.op) in h)
  }

  ghost predicate PlanFits(d: Driver, id: PlanId) {
    var h := Log(d.stored, id);
    && Grounded(h)
    && (id in d.plans ==> && h != [] && h[|h| - 1] == d.plans[id].state
                          && d.plans[id].id == id && FairClass(d.plans[id], h))
    && (id !in d.plans ==> h == [])
    && forall e :: e in Log(d.events, id) ==> Reported(e) in h
  }

  /** A plan found between two states has an operation in flight that will move it on. */
  ghost predicate MovesOn(s: State, id: PlanId) {
    id in s.driver.plans && !AtRest(s.driver.plans[id].state) ==>
      exists k :: k in s.inFlight && s.inFlight[k].Begun? && s.inFlight[k].op.id == id
  }

  ghost predicate Fits(s: State) {
    && (forall id :: PlanFits(s.driver, id))
    && (forall k :: k in s.inFlight ==> StageFits(s.driver, s.inFlight[k]))
    && forall id :: MovesOn(s, id)
  }

  lemma GroundedGrows(h: seq<UpdateState>, from: UpdateState, to: UpdateState)
    requires Grounded(h) && from in h && IsLegal(from, to)
    ensures Grounded(h + [to])
  {
    var h' := h + [to];
    var j :| 0 <= j < |h| && h[j] == from;
    forall k | 0 < k < |h'|
      ensures HasSource(h', k)
    {
      if k < |h| {
        assert HasSource(h, k);
        var i :| 0 <= i < k && IsLegal(h[i], h[k]);
        assert h'[i] == h[i] && h'[k] == h[k];
      } else {
        assert h'[j] == from && h'[k] == to;
      }
    }
  }

  /** Storing a plan in a state with a legal source among the stored ones. */
  lemma StoreFits(d: Driver, p: Plan, from: UpdateState, id: PlanId)
    requires PlanFits(d, id) && p.id in d.plans
    requires p.id == id ==> from in Log(d.stored, id) && IsLegal(from, p.state)
    requires p.id == id ==> FairClass(p, Log(d.stored, id) + [p.state])
    ensures PlanFits(Store(d, p), id)
  {
    if p.id == id {
      GroundedGrows(Log(d.stored, id), from, p.state);
    }
  }

  lemma StoredGrows(d: Driver, p: Plan, st: Stage)
    requires StageFits(d, st)
    ensures StageFits(Store(d, p), st)
  {
  }

  lemma FitsCreate(s: State, a: Action)
    requires Fits(s) && MintsFresh(s, a) && a.Create?
    ensures Fits(Next(s, a))
  {
    var s' := Next(s, a);
    if s' != s {
      var p := NewPlan(a.id, a.req, a.createdAt, a.changedAt);
      forall id
        ensures PlanFits(s'.driver, id) && MovesOn(s', id)
      {
        assert PlanFits(s.driver, id) && MovesOn(s, id);
      }
      forall k | k in s'.inFlight
        ensures StageFits(s'.driver, s'.inFlight[k])
      {
        StoredGrows(s.driver, p, s.inFlight[k]);
      }
    }
  }

  /** Both stores of an operation, in one lemma: `p` is stored, from a state stored before. */
  lemma FitsStore(s: State, k: OpId, p: Plan, from: UpdateState, st': Stage)
    requires Fits(s) && k in s.inFlight
    requires p.id in s.driver.plans && from in Log(s.driver.stored, p.id) && IsLegal(from, p.state)
    requires FairClass(p, Log(s.driver.stored, p.id) + [p.state])
    requires st'.op.id == p.id && StageFits(Store(s.driver, p), st')
    requires !AtRest(p.state) ==> st'.Begun?
    requires s.inFlight[k].op.id == p.id
    requires s.inFlight[k].Begun? ==> AtRest(p.state)
    ensures Fits(State(Store(s.driver, p), s.inFlight[k := st']))
  {
    var s' := State(Store(s.driver, p), s.inFlight[k := st']);
    forall id
      ensures PlanFits(s'.driver, id)
    {
      assert PlanFits(s.driver, id);
      StoreFits(s.driver, p, from, id);
    }
    forall o | o in s'.inFlight
      ensures StageFits(s'.driver, s'.inFlight[o])
    {
      if o != k {
        StoredGrows(s.driver, p, s.inFlight[o]);
      }
    }
    forall id
      ensures MovesOn(s', id)
    {
      assert MovesOn(s, id);
      if id == p.id {
        assert s'.inFlight[k] == st';
      } else if id in s.driver.plans && !AtRest(s.driver.plans[id].state) {
        var o :| o in s.inFlight && s.inFlight[o].Begun? && s.inFlight[o].op.id == id;
        assert o != k && s'.inFlight[o] == s.inFlight[o];
      }
    }
  }

  lemma FitsLoad(s: State, a: Action)
    requires Fits(s) && a.Load?
    ensures Fits(Next(s, a))
  {
    var s' := Next(s, a);
    if s' != s {
      var id := a.op.id;
      assert PlanFits(s.driver, id);
      assert StageFits(s.driver, s'.inFlight[a.k]);
      forall i
        ensures MovesOn(s', i)
      {
        assert MovesOn(s, i);
        if i in s.driver.plans && !AtRest(s.driver.plans[i].state) {
          var o :| o in s.inFlight && s.inFlight[o].Begun? && s.inFlight[o].op.id == i;
          assert s'.inFlight[o] == s.inFlight[o];
        }
      }
    }
  }

  lemma EmitFits(d: Driver, st: Stage, id: PlanId)
    requires StageFits(d, st) && st.Done? && PlanFits(d, id)
    ensures PlanFits(Emit(d, st.plan.id, EventOf(st.op), st.op.emission), id)
  {
  }

  lemma FitsFinish(s: State, a: Action)
    requires Fits(s) && a.Finish?
    ensures Fits(Next(s, a))
  {
    var s' := Next(s, a);
    if s' != s {
      var st := s.inFlight[a.k];
      assert StageFits(s.driver, st);
      forall i
        ensures PlanFits(s'.driver, i) && MovesOn(s', i)
      {
        assert PlanFits(s.driver, i) && MovesOn(s, i);
        EmitFits(s.driver, st, i);
        if i in s.driver.plans && !AtRest(s.driver.plans[i].state) {
          var o :| o in s.inFlight && s.inFlight[o].Begun? && s.inFlight[o].op.id == i;
          assert s'.inFlight[o] == s.inFlight[o];
        }
      }
    }
  }

  lemma FitsStep(s: State, a: Action)
    requires Fits(s) && MintsFresh(s, a)
    ensures Fits(Next(s, a))
  {
    var s' := Next(s, a);
    match a
    case Create(_, _, _, _) => FitsCreate(s, a);
    case Load(_, _) => FitsLoad(s, a);
    case Finish(_) => FitsFinish(s, a);
    case StoreFirst(k) =>
      if s' != s {
        var st := s.inFlight[k];
        assert StageFits(s.driver, st);
        FitsStore(s, k, Started(st.plan, st.op), st.plan.state, Begun(st.op, st.plan));
      }
    case StoreLast(k) =>
      if s' != s {
        var st := s.inFlight[k];
        assert StageFits(s.driver, st);
        FitsStore(s, k, Outcome(st.plan, st.op), During(st.op), Done(st.op, st.plan));
      }
  }

  lemma {:induction false} FitsRun(n: nat, m: nat, s: State, acts: seq<Action>)
    requires Fits(s) && IsRun(n, m, s, acts)
    ensures Fits(Exec(s, acts))
    decreases |acts|
  {
    if acts != [] {
      FitsStep(s, acts[0]);
      FitsRun(n, m, Next(s, acts[0]), acts[1..]);
    }
  }

  lemma ReachableFits(n: nat, m: nat, s: State)
    requires Reaches(n, m, INIT, s)
    ensures Fits(s)
  {
    var acts :| IsRun(n, m, INIT, acts) && Exec(INIT, acts) == s;
    FitsRun(n, m, INIT, acts);
  }

  /** The ids of the plans that a run made to be kept. */
  function CreatedIds(acts: seq<Action>): set<PlanId>
    decreases |acts|
  {
    if acts == [] then {}
    else (if acts[0].Create? && !acts[0].req.dryRun then {acts[0].id} else {}) + CreatedIds(acts[1..])
  }

  lemma KeysStep(s: State, a: Action)
    requires Fits(s)
    ensures Next(s, a).driver.plans.Keys ==
            s.driver.plans.Keys + if a.Create? && !a.req.dryRun then {a.id} else {}
  {
    if (a.StoreFirst? || a.StoreLast?) && a.k in s.inFlight {
      assert StageFits(s.driver, s.inFlight[a.k]);
    }
  }

  /** In every interleaving the plans that can be loaded are those not made as a dry run. */
  lemma {:induction false} LoadableExactly(n: nat, m: nat, s: State, acts: seq<Action>)
    requires Fits(s) && IsRun(n, m, s, acts)
    ensures Exec(s, acts).driver.plans.Keys == s.driver.plans.Keys + CreatedIds(acts)
    decreases |acts|
  {
    if acts != [] {
      FitsStep(s, acts[0]);
      KeysStep(s, acts[0]);
      LoadableExactly(n, m, Next(s, acts[0]), acts[1..]);
    }
  }

  /** The places of the whole path up to a state of it, in order. */
  lemma {:induction false} PathTo(h: seq<UpdateState>, k: nat, r: nat) returns (at: seq<nat>)
    requires Grounded(h) && k < |h| && r <= 6 && h[k] == ACTIVE_PATH[r]
    ensures |at| == r + 1 && at[r] == k
    ensures forall i, j :: 0 <= i < j <= r ==> at[i] < at[j]
    ensures forall i :: 0 <= i <= r ==> at[i] < |h| && h[at[i]] == ACTIVE_PATH[i]
    decreases r
  {
    if r == 0 {
      at := [k];
    } else {
      assert HasSource(h, k);
      var i :| 0 <= i < k && IsLegal(h[i], h[k]);
      at := PathTo(h, i, r - 1);
      at := at + [k];
    }
  }

  /** The plan went through the whole path to Active, with other states in between or not. */
  ghost predicate EarnedActive(h: seq<UpdateState>, k: nat) {
    exists at: seq<nat> :: |at| == 7 && at[6] == k
      && (forall i, j :: 0 <= i < j < 7 ==> at[i] < at[j])
      && forall i :: 0 <= i < 7 ==> at[i] < |h| && h[at[i]] == ACTIVE_PATH[i]
  }

  lemma ActiveIsEarned(h: seq<UpdateState>, k: nat)
    requires Grounded(h) && k < |h| && h[k] == Active
    ensures EarnedActive(h, k)
  {
    var at := PathTo(h, k, 6);
  }

  /** In every interleaving: a plan starts as planned, every state stored later has a legal source
      among those before it, Active comes only after the whole path to it, a failure class was
      earned and a failed plan has one, every event reports a state that was stored, and a plan
      with nothing in flight is at rest. */
  lemma PlanUnderOverlap(n: nat, m: nat, s: State, id: PlanId)
    requires Reaches(n, m, INIT, s) && id in s.driver.plans
    ensures var p, h := s.driver.plans[id], Log(s.driver.stored, id);
            && h != [] && h[0] == Planned && h[|h| - 1] == p.state
            && (forall k :: 0 < k < |h| ==> HasSource(h, k))
            && (forall k :: 0 <= k < |h| && h[k] == Active ==> EarnedActive(h, k))
            && (p.failureClass.Some? ==> p.failureClass.value == VerifyMismatch && Failed in h)
            && (p.state.Failed? ==> p.failureClass.Some?)
            && (forall e :: e in Log(s.driver.events, id) ==> Reported(e) in h)
            && (s.inFlight == map[] ==> AtRest(p.state))
  {
    ReachableFits(n, m, s);
    assert PlanFits(s.driver, id) && MovesOn(s, id);
    var h := Log(s.driver.stored, id);
    forall k | 0 <= k < |h| && h[k] == Active
      ensures EarnedActive(h, k)
    {
      ActiveIsEarned(h, k);
    }
  }

  /** The plan, and every copy of it that an operation in flight works on, was made for the request. */
  ghost predicate AllMadeFor(s: State, id: PlanId, req: PlanRequest, createdAt: int) {
    && id in s.driver.plans && MadeFor(s.driver.plans[id], req, createdAt)
    && forall k :: k in s.inFlight && s.inFlight[k].op.id == id ==> MadeFor(s.inFlight[k].plan, req, createdAt)
  }

  lemma MadeForStep(s: State, a: Action, id: PlanId, req: PlanRequest, createdAt: int)
    requires Fits(s) && MintsFresh(s, a) && AllMadeFor(s, id, req, createdAt)
    ensures AllMadeFor(Next(s, a), id, req, createdAt)
  {
    if (a.StoreFirst? || a.StoreLast?) && a.k in s.inFlight {
      assert StageFits(s.driver, s.inFlight[a.k]);
    }
  }

  lemma {:induction false} MadeForRun(n: nat, m: nat, s: State, acts: seq<Action>, id: PlanId, req: PlanRequest,
                                      createdAt: int)
    requires Fits(s) && IsRun(n, m, s, acts) && AllMadeFor(s, id, req, createdAt)
    ensures AllMadeFor(Exec(s, acts), id, req, createdAt)
    decreases |acts|
  {
    if acts != [] {
      FitsStep(s, acts[0]);
      MadeForStep(s, acts[0], id, req, createdAt);
      MadeForRun(n, m, Next(s, acts[0]), acts[1..], id, req, createdAt);
    }
  }

  lemma CreateMakes(s: State, a: Action)
    requires Fits(s) && MintsFresh(s, a) && a.Create? && !a.req.dryRun
    ensures AllMadeFor(Next(s, a), a.id, a.req, a.createdAt)
  {
    forall k | k in s.inFlight
      ensures s.inFlight[k].op.id != a.id
    {
      assert StageFits(s.driver, s.inFlight[k]);
    }
  }

  /** In every interleaving, from its creation on, a plan and every copy of it in flight has the package,
      the versions and the creation time it was made with. */
  lemma {:induction false} PlanCarriesRequestUnderOverlap(n: nat, m: nat, s: State, acts: seq<Action>, k: nat)
    requires Fits(s) && IsRun(n, m, s, acts) && k < |acts| && acts[k].Create? && !acts[k].req.dryRun
    ensures var d, id, req := Exec(s, acts).driver, acts[k].id, acts[k].req;
            && id in d.plans
            && d.plans[id].packageId == req.packageId && d.plans[id].fromVersion == req.fromVersion
            && d.plans[id].toVersion == req.toVersion && d.plans[id].createdAt == acts[k].createdAt
    decreases |acts|
  {
    FitsStep(s, acts[0]);
    if k == 0 {
      CreateMakes(s, acts[0]);
      MadeForRun(n, m, Next(s, acts[0]), acts[1..], acts[0].id, acts[0].req, acts[0].createdAt);
    } else {
      PlanCarriesRequestUnderOverlap(n, m, Next(s, acts[0]), acts[1..], k - 1);
    }
  }

  // ---------------------------------------------------------------------------
  // At most one operation in flight on each plan
  // ---------------------------------------------------------------------------

  /** The table that an operation has made of `d` so far. */
  function SoFar(d: Driver, st: Stage): Driver
    requires !st.op.PlanUpdate?
  {
    match st
    case Loaded(_, _) => d
    case Begun(op, p) => Store(d, Started(p, op))
    case Done(op, p) => Store(Store(d, Started(p, op)), Outcome(p, op))
  }

  lemma SameEntries<T(!new)>(m: map<PlanId, T>, m': map<PlanId, T>)
    requires forall id :: SameEntry(m, m', id)
    ensures m == m'
  {
    forall id
      ensures id in m <==> id in m'
      ensures id in m ==> m[id] == m'[id]
    {
      assert SameEntry(m, m', id);
    }
  }

  lemma SameEverywhere(d: Driver, d': Driver)
    requires forall id :: SameAt(d, d', id)
    ensures d == d'
  {
    forall id
      ensures SameEntry(d.plans, d'.plans, id) && SameEntry(d.stored, d'.stored, id)
      ensures SameEntry(d.events, d'.events, id)
    {
      assert SameAt(d, d', id);
    }
    SameEntries(d.plans, d'.plans);
    SameEntries(d.stored, d'.stored);
    SameEntries(d.events, d'.events);
  }

  /** The operation is part-way through its turn after `d`. */
  ghost predicate TakesTurn(d: Driver, d': Driver, st: Stage) {
    && !st.op.PlanUpdate? && CanStart(d, st.op) && st.plan == d.plans[st.op.id]
    && SameAt(d', SoFar(d, st), st.op.id)
  }

  /** Nothing in flight works on the plan. */
  ghost predicate Free(s: State, id: PlanId) {
    forall k :: k in s.inFlight ==> s.inFlight[k].op.id != id
  }

  /** No two operations in flight work on one plan. */
  ghost predicate Apart(s: State) {
    forall k, l :: k in s.inFlight && l in s.inFlight && s.inFlight[k].op.id == s.inFlight[l].op.id ==> k == l
  }

  ghost predicate AllPersist(ops: seq<Op>) {
    forall i :: 0 <= i < |ops| && ops[i].PlanUpdate? ==> !ops[i].req.dryRun
  }

  /** Each plan has at most one operation in flight, which is part-way through its turn after the
      sequential run `ops`; the plans without one are as that run left them. */
  ghost predicate InTurn(s: State, ops: seq<Op>) {
    var d := Run(EMPTY, ops);
    && UniqueIds(ops) && AllPersist(ops) && FiledById(d)
    && Apart(s)
    && (forall k :: k in s.inFlight ==> TakesTurn(d, s.driver, s.inFlight[k]))
    && forall id :: Free(s, id) ==> SameAt(s.driver, d, id)
  }

  lemma SoFarSame(d: Driver, d': Driver, st: Stage, id: PlanId)
    requires SameAt(d, d', id) && !st.op.PlanUpdate?
    ensures SameAt(SoFar(d, st), SoFar(d', st), id)
  {
    if !st.Loaded? {
      StoreSame(d, d', Started(st.plan, st.op), id);
      StoreSame(Store(d, Started(st.plan, st.op)), Store(d', Started(st.plan, st.op)), Outcome(st.plan, st.op), id);
    }
  }

  /** What happens to other plans does not disturb a turn. */
  lemma Undisturbed(d: Driver, d': Driver, e: Driver, e': Driver, st: Stage)
    requires TakesTurn(d, e, st) && SameAt(d, d', st.op.id) && SameAt(e, e', st.op.id)
    ensures TakesTurn(d', e', st)
  {
    SoFarSame(d, d', st, st.op.id);
  }

  /** An id that is not in the table was not given to a plan before. */
  lemma FreshStaysUnique(ops: seq<Op>, op: Op)
    requires UniqueIds(ops) && AllPersist(ops)
    requires op.PlanUpdate? ==> op.id !in Run(EMPTY, ops).plans
    ensures UniqueIds(ops + [op])
  {
    RunKeys(EMPTY, ops);
    var ops' := ops + [op];
    forall i, j | 0 <= i < j < |ops'| && ops'[i].PlanUpdate? && ops'[j].PlanUpdate?
      ensures ops'[i].id != ops'[j].id
    {
      if j == |ops| {
        assert ops[i].id in PersistedIds(ops);
      }
    }
  }

  /** An operation ends: it counts as done after the others, whose turns go on. */
  lemma TurnEnds(s: State, ops: seq<Op>, op: Op, s': State)
    requires InTurn(s, ops) && Apart(s') && s'.inFlight.Keys <= s.inFlight.Keys
    requires op.PlanUpdate? ==> op.id !in Run(EMPTY, ops).plans && !op.req.dryRun
    requires forall k :: k in s'.inFlight ==> s'.inFlight[k] == s.inFlight[k] && s.inFlight[k].op.id != op.id
    requires forall id :: id != op.id && Free(s', id) ==> Free(s, id)
    requires forall id :: id != op.id ==> SameAt(s.driver, s'.driver, id)
    requires SameAt(s'.driver, Apply(Run(EMPTY, ops), op), op.id)
    ensures InTurn(s', ops + [op])
  {
    var d := Run(EMPTY, ops);
    RunAppend(EMPTY, ops, op);
    FreshStaysUnique(ops, op);
    ApplyPlans(d, op);
    forall k | k in s'.inFlight
      ensures TakesTurn(Apply(d, op), s'.driver, s'.inFlight[k])
    {
      ApplyElsewhere(d, op, s.inFlight[k].op.id);
      Undisturbed(d, Apply(d, op), s.driver, s'.driver, s.inFlight[k]);
    }
    forall id | Free(s', id)
      ensures SameAt(s'.driver, Apply(d, op), id)
    {
      if id != op.id {
        assert Free(s, id) && SameAt(s.driver, d, id) && SameAt(s.driver, s'.driver, id);
        ApplyElsewhere(d, op, id);
      }
    }
  }

  lemma TurnCreate(s: State, a: Action, ops: seq<Op>) returns (ops': seq<Op>)
    requires InTurn(s, ops) && a.Create? && MintsFresh(s, a)
    ensures InTurn(Next(s, a), ops')
  {
    ops' := ops;
    if !a.req.dryRun {
      var d, op := Run(EMPTY, ops), PlanUpdate(a.id, a.req, a.createdAt, a.changedAt);
      forall k | k in s.inFlight
        ensures s.inFlight[k].op.id != a.id
      {
        assert TakesTurn(d, s.driver, s.inFlight[k]);
      }
      assert Free(s, a.id) && SameAt(s.driver, d, a.id);
      StoreSame(s.driver, d, NewPlan(a.id, a.req, a.createdAt, a.changedAt), a.id);
      forall id | id != a.id
        ensures SameAt(s.driver, Next(s, a).driver, id)
      {
        StoreSame(s.driver, s.driver, NewPlan(a.id, a.req, a.createdAt, a.changedAt), id);
      }
      TurnEnds(s, ops, op, Next(s, a));
      ops' := ops + [op];
    }
  }

  /** Within the limits an operation loads a plan that nothing in flight works on. */
  lemma LoadsFree(n: nat, m: nat, s: State, a: Action)
    requires (n <= 1 || m <= 1) && a.Load? && Within(n, m, s, a)
    ensures Free(s, a.op.id)
  {
    assert On(s.inFlight, a.op.id) == {} || s.inFlight == map[];
    forall k | k in s.inFlight
      ensures s.inFlight[k].op.id != a.op.id
    {
      assert k !in On(s.inFlight, a.op.id);
    }
  }

  lemma TurnLoad(s: State, a: Action, ops: seq<Op>)
    requires InTurn(s, ops) && a.Load? && Free(s, a.op.id)
    ensures InTurn(Next(s, a), ops)
  {
    var s' := Next(s, a);
    if s' != s {
      assert SameAt(s.driver, Run(EMPTY, ops), a.op.id);
      assert TakesTurn(Run(EMPTY, ops), s'.driver, s'.inFlight[a.k]);
      forall id | Free(s', id)
        ensures Free(s, id)
      {
        assert forall k :: k in s.inFlight ==> s'.inFlight[k] == s.inFlight[k];
      }
    }
  }

  /** Operations in flight that move on stay on their plans. */
  lemma FreeBefore(s: State, s': State, id: PlanId)
    requires Free(s', id)
    requires forall k :: k in s.inFlight && s.inFlight[k].op.id == id ==>
                           k in s'.inFlight && s'.inFlight[k].op.id == s.inFlight[k].op.id
    ensures Free(s, id)
  {
  }

  lemma StoredElsewhere(d: Driver, e: Driver, p: Plan, st: Stage)
    requires TakesTurn(d, e, st) && p.id != st.op.id
    ensures TakesTurn(d, Store(e, p), st)
  {
    StoreSame(e, e, p, st.op.id);
    Undisturbed(d, d, e, Store(e, p), st);
  }

  lemma StoredHere(d: Driver, e: Driver, p: Plan, st: Stage, st': Stage)
    requires TakesTurn(d, e, st) && st'.op == st.op && st'.plan == st.plan
    requires SoFar(d, st') == Store(SoFar(d, st), p)
    ensures TakesTurn(d, Store(e, p), st')
  {
    StoreSame(e, SoFar(d, st), p, st.op.id);
  }

  /** Both stores: `p` is what the operation stores next. */
  lemma TurnStore(s: State, k: OpId, ops: seq<Op>, p: Plan, st': Stage)
    requires InTurn(s, ops) && k in s.inFlight
    requires var st := s.inFlight[k];
             && st'.op == st.op && st'.plan == st.plan && p.id == st.op.id
             && SoFar(Run(EMPTY, ops), st') == Store(SoFar(Run(EMPTY, ops), st), p)
    ensures InTurn(State(Store(s.driver, p), s.inFlight[k := st']), ops)
  {
    var d, s' := Run(EMPTY, ops), State(Store(s.driver, p), s.inFlight[k := st']);
    StoredHere(d, s.driver, p, s.inFlight[k], st');
    forall l | l in s.inFlight && l != k
      ensures TakesTurn(d, s'.driver, s.inFlight[l])
    {
      StoredElsewhere(d, s.driver, p, s.inFlight[l]);
    }
    forall id | Free(s', id)
      ensures SameAt(s'.driver, d, id)
    {
      FreeBefore(s, s', id);
      StoreSame(s.driver, d, p, id);
    }
  }

  lemma FinishSame(d: Driver, e: Driver, st: Stage)
    requires TakesTurn(d, e, st) && st.Done?
    ensures SameAt(Emit(e, st.plan.id, EventOf(st.op), st.op.emission), Apply(d, st.op), st.op.id)
  {
    EmitSame(e, SoFar(d, st), st.plan.id, EventOf(st.op), st.op.emission, st.op.id);
  }

  lemma TurnFinish(s: State, a: Action, ops: seq<Op>) returns (ops': seq<Op>)
    requires InTurn(s, ops) && a.Finish? && Next(s, a) != s
    ensures InTurn(Next(s, a), ops')
  {
    var d, s', st := Run(EMPTY, ops), Next(s, a), s.inFlight[a.k];
    assert TakesTurn(d, s.driver, st);
    forall id | id != st.op.id
      ensures SameAt(s.driver, s'.driver, id)
    {
      EmitSame(s.driver, s.driver, st.plan.id, EventOf(st.op), st.op.emission, id);
    }
    FinishSame(d, s.driver, st);
    forall id | id != st.op.id && Free(s', id)
      ensures Free(s, id)
    {
      FreeBefore(s, s', id);
    }
    TurnEnds(s, ops, st.op, s');
    ops' := ops + [st.op];
  }

  lemma TurnStep(n: nat, m: nat, s: State, a: Action, ops: seq<Op>) returns (ops': seq<Op>)
    requires (n <= 1 || m <= 1) && InTurn(s, ops) && Within(n, m, s, a) && MintsFresh(s, a)
    ensures InTurn(Next(s, a), ops')
  {
    ops' := ops;
    if a.Create? {
      ops' := TurnCreate(s, a, ops);
    } else if a.Load? {
      LoadsFree(n, m, s, a);
      TurnLoad(s, a, ops);
    } else if Next(s, a) != s {
      var st := s.inFlight[a.k];
      assert TakesTurn(Run(EMPTY, ops), s.driver, st);
      if a.Finish? {
        ops' := TurnFinish(s, a, ops);
      } else if a.StoreFirst? {
        TurnStore(s, a.k, ops, Started(st.plan, st.op), Begun(st.op, st.plan));
      } else {
        TurnStore(s, a.k, ops, Outcome(st.plan, st.op), Done(st.op, st.plan));
      }
    }
  }

  lemma {:induction false} TurnRun(n: nat, m: nat, s: State, acts: seq<Action>, ops: seq<Op>) returns (ops': seq<Op>)
    requires (n <= 1 || m <= 1) && InTurn(s, ops) && IsRun(n, m, s, acts)
    ensures InTurn(Exec(s, acts), ops')
    decreases |acts|
  {
    ops' := ops;
    if acts != [] {
      ops' := TurnStep(n, m, s, acts[0], ops);
      ops' := TurnRun(n, m, Next(s, acts[0]), acts[1..], ops');
    }
  }

  lemma ReachableInTurn(n: nat, m: nat, s: State) returns (ops: seq<Op>)
    requires (n <= 1 || m <= 1) && Reaches(n, m, INIT, s)
    ensures InTurn(s, ops)
  {
    var acts :| IsRun(n, m, INIT, acts) && Exec(INIT, acts) == s;
    assert Run(EMPTY, []) == EMPTY && InTurn(INIT, []);
    ops := TurnRun(n, m, INIT, acts, []);
  }

  // ---------------------------------------------------------------------------
  // Runs built from whole operations
  // ---------------------------------------------------------------------------

  lemma SameSize(m: map<OpId, Stage>, k: OpId, st: Stage)
    requires k in m
    ensures |m[k := st]| == |m|
  {
    assert m[k := st].Keys == m.Keys;
    assert |m[k := st].Keys| == |m.Keys|;
  }

  /** An operation that loaded `p`, however long ago, runs to its end. */
  lemma FinishLoaded(n: nat, m: nat, o: State, s: State, k: OpId, op: Op, p: Plan) returns (s': State)
    requires Reaches(n, m, o, s) && |s.inFlight| <= n && !op.PlanUpdate?
    requires k in s.inFlight && s.inFlight[k] == Loaded(op, p)
    ensures s' == State(Complete(s.driver, p, op), s.inFlight - {k})
    ensures Reaches(n, m, o, s')
  {
    ReachStep(n, m, o, s, StoreFirst(k));
    var s1 := Next(s, StoreFirst(k));
    SameSize(s.inFlight, k, Begun(op, p));
    ReachStep(n, m, o, s1, StoreLast(k));
    var s2 := Next(s1, StoreLast(k));
    SameSize(s1.inFlight, k, Done(op, p));
    ReachStep(n, m, o, s2, Finish(k));
    s' := Next(s2, Finish(k));
    assert s2.inFlight - {k} == s.inFlight - {k};
  }

  /** With nothing else in flight an operation can run from start to end. */
  lemma WholeOp(n: nat, m: nat, s: State, op: Op)
    requires n >= 1 && m >= 1 && Reaches(n, m, INIT, s) && s.inFlight == map[]
    requires !op.PlanUpdate? && CanStart(s.driver, op)
    ensures Reaches(n, m, INIT, State(Apply(s.driver, op), map[]))
  {
    ReachStep(n, m, INIT, s, Load(0, op));
    var s1 := Next(s, Load(0, op));
    assert s1.inFlight == map[0 := Loaded(op, s.driver.plans[op.id])] && |s1.inFlight| == 1;
    var s2 := FinishLoaded(n, m, INIT, s1, 0, op, s.driver.plans[op.id]);
    assert s2.inFlight == map[];
  }

  lemma {:induction false} SequentialIsReached(n: nat, m: nat, ops: seq<Op>)
    requires n >= 1 && m >= 1 && UniqueIds(ops)
    ensures Reaches(n, m, INIT, State(Run(EMPTY, ops), map[]))
    decreases |ops|
  {
    if ops == [] {
      ReachHere(n, m, INIT);
    } else {
      var front, op := ops[..|ops| - 1], ops[|ops| - 1];
      assert ops == front + [op];
      SequentialIsReached(n, m, front);
      RunAppend(EMPTY, front, op);
      var s := State(Run(EMPTY, front), map[]);
      if op.PlanUpdate? {
        RunKeys(EMPTY, front);
        assert op.id !in PersistedIds(front);
        ReachStep(n, m, INIT, s, Create(op.id, op.req, op.createdAt, op.changedAt));
      } else if CanStart(s.driver, op) {
        WholeOp(n, m, s, op);
      }
    }
  }

  /** With at most one operation in flight on each plan, and any number in all, the tables found
      when nothing is in flight are exactly those of the sequential runs. */
  lemma OneAtATimeIsSequential(n: nat, m: nat, d: Driver)
    requires n >= 1 && m >= 1 && (n == 1 || m == 1)
    ensures Reaches(n, m, INIT, State(d, map[])) <==> exists ops :: UniqueIds(ops) && Run(EMPTY, ops) == d
  {
    if Reaches(n, m, INIT, State(d, map[])) {
      var ops := ReachableInTurn(n, m, State(d, map[]));
      SameEverywhere(d, Run(EMPTY, ops));
    }
    if ops :| UniqueIds(ops) && Run(EMPTY, ops) == d {
      SequentialIsReached(n, m, ops);
    }
  }

  lemma OnIsSmall(inFlight: map<OpId, Stage>, id: PlanId)
    ensures |On(inFlight, id)| <= |inFlight|
  {
    SubsetCardinality(On(inFlight, id), inFlight.Keys);
  }

  /** Two operations load their plans. */
  lemma LoadBoth(n: nat, m: nat, s: State, a: Op, b: Op) returns (s': State)
    requires n >= 2 && m >= 2 && Reaches(n, m, INIT, s) && s.inFlight == map[]
    requires !a.PlanUpdate? && !b.PlanUpdate? && CanStart(s.driver, a) && CanStart(s.driver, b)
    ensures Reaches(n, m, INIT, s') && s'.driver == s.driver
    ensures s'.inFlight == map[0 := Loaded(a, s.driver.plans[a.id]), 1 := Loaded(b, s.driver.plans[b.id])]
  {
    assert On(s.inFlight, a.id) == {};
    ReachStep(n, m, INIT, s, Load(0, a));
    var s1 := Next(s, Load(0, a));
    assert s1.inFlight == map[0 := Loaded(a, s.driver.plans[a.id])] && |s1.inFlight| == 1;
    OnIsSmall(s1.inFlight, b.id);
    ReachStep(n, m, INIT, s1, Load(1, b));
    s' := Next(s1, Load(1, b));
  }

  /** The only operation in flight runs to its end. */
  lemma FinishOnly(n: nat, m: nat, o: State, s: State, k: OpId, op: Op, p: Plan)
    requires n >= 1 && Reaches(n, m, o, s) && !op.PlanUpdate? && s.inFlight == map[k := Loaded(op, p)]
    ensures Reaches(n, m, o, State(Complete(s.driver, p, op), map[]))
  {
    assert |s.inFlight| == 1;
    var s' := FinishLoaded(n, m, o, s, k, op, p);
    assert s'.inFlight == map[];
  }

  /** Two operations load the same plan, then one runs to its end and the other one after it. */
  lemma Race(n: nat, m: nat, s: State, a: Op, b: Op) returns (mid: State, end: State)
    requires n >= 2 && m >= 2 && Reaches(n, m, INIT, s) && s.inFlight == map[]
    requires !a.PlanUpdate? && !b.PlanUpdate? && CanStart(s.driver, a) && CanStart(s.driver, b)
    ensures Reaches(n, m, INIT, mid) && Reaches(n, m, mid, end) && Reaches(n, m, INIT, end)
    ensures mid.driver == Apply(s.driver, a)
    ensures end == State(Complete(Apply(s.driver, a), s.driver.plans[b.id], b), map[])
  {
    var s2 := LoadBoth(n, m, s, a, b);
    assert |s2.inFlight| == 2;
    mid := FinishLoaded(n, m, INIT, s2, 0, a, s.driver.plans[a.id]);
    assert mid.inFlight == map[1 := Loaded(b, s.driver.plans[b.id])];
    end := State(Complete(mid.driver, s.driver.plans[b.id], b), map[]);
    FinishOnly(n, m, INIT, mid, 1, b, s.driver.plans[b.id]);
    ReachHere(n, m, mid);
    FinishOnly(n, m, mid, mid, 1, b, s.driver.plans[b.id]);
  }

  // ---------------------------------------------------------------------------
  // What holds exactly without overlap
  // ---------------------------------------------------------------------------

  /** In all runs within the limits, stored states follow legal edges. */
  ghost predicate HistoriesAreLegal(n: nat, m: nat) {
    forall s, id :: Reaches(n, m, INIT, s) && id in s.driver.plans ==> LegalHistory(Log(s.driver.stored, id))
  }

  /** Their rank rises. */
  ghost predicate HistoriesRise(n: nat, m: nat) {
    forall s, id, i, j :: Reaches(n, m, INIT, s) && 0 <= i < j < |Log(s.driver.stored, id)| ==>
      Rank(Log(s.driver.stored, id)[i]) < Rank(Log(s.driver.stored, id)[j])
  }

  /** There are at most eight changes. */
  ghost predicate HistoriesAreShort(n: nat, m: nat) {
    forall s, id :: Reaches(n, m, INIT, s) ==> |Log(s.driver.stored, id)| <= 9
  }

  /** Events come in phase order, none twice, none ahead of the plan. */
  ghost predicate EventsAreOrdered(n: nat, m: nat) {
    forall s, id :: Reaches(n, m, INIT, s) && id in s.driver.plans ==>
      EventsOrdered(Log(s.driver.events, id), s.driver.plans[id].state)
  }

  /** A plan that failed verification carries the failure class ever after. */
  ghost predicate FailuresAreKept(n: nat, m: nat) {
    forall s, id :: Reaches(n, m, INIT, s) && id in s.driver.plans && Failed in Log(s.driver.stored, id) ==>
      s.driver.plans[id].failureClass == Some(VerifyMismatch)
  }

  ghost predicate IsRolledBack(d: Driver, id: PlanId) {
    id in d.plans && (d.plans[id].state.RolledBack? || d.plans[id].state.RollbackFailed?)
  }

  /** A rolled-back plan is found unchanged ever after. */
  ghost predicate RolledBackIsTerminal(n: nat, m: nat) {
    forall s, s', id :: Reaches(n, m, INIT, s) && Reaches(n, m, s, s') && IsRolledBack(s.driver, id) ==>
      id in s'.driver.plans && s'.driver.plans[id] == s.driver.plans[id]
  }

  lemma SoFarIsTidy(d: Driver, st: Stage)
    requires !st.op.PlanUpdate? && Tidy(d, st.op.id) && CanStart(d, st.op) && st.plan == d.plans[st.op.id]
    ensures Tidy(SoFar(d, st), st.op.id)
  {
    if !st.Loaded? {
      StoreIsTidy(d, Started(st.plan, st.op));
      if st.Done? {
        StoreIsTidy(Store(d, Started(st.plan, st.op)), Outcome(st.plan, st.op));
      }
    }
  }

  /** With at most one operation in flight on each plan, everything stored about a plan is tidy at
      any moment. */
  lemma ReachableIsTidy(n: nat, m: nat, s: State, id: PlanId)
    requires (n <= 1 || m <= 1) && Reaches(n, m, INIT, s)
    ensures Tidy(s.driver, id)
  {
    var ops := ReachableInTurn(n, m, s);
    var d := Run(EMPTY, ops);
    KeptRun(EMPTY, ops);
    assert Kept(d, id);
    if !Free(s, id) {
      var k :| k in s.inFlight && s.inFlight[k].op.id == id;
      assert TakesTurn(d, s.driver, s.inFlight[k]);
      SoFarIsTidy(d, s.inFlight[k]);
      TidySame(SoFar(d, s.inFlight[k]), s.driver, id);
    } else {
      TidySame(d, s.driver, id);
    }
  }

  lemma MovingIsNotRolledBack(d: Driver, e: Driver, st: Stage)
    requires FiledById(d) && TakesTurn(d, e, st) && !st.Done?
    ensures !IsRolledBack(e, st.op.id) && st.plan.id == st.op.id
  {
  }

  /** In its turn an operation does not touch a rolled-back plan. */
  lemma TurnSparesRolledBack(s: State, a: Action, ops: seq<Op>, id: PlanId)
    requires InTurn(s, ops) && MintsFresh(s, a) && IsRolledBack(s.driver, id)
    ensures id in Next(s, a).driver.plans && Next(s, a).driver.plans[id] == s.driver.plans[id]
  {
    if (a.StoreFirst? || a.StoreLast?) && a.k in s.inFlight && !s.inFlight[a.k].Done? {
      MovingIsNotRolledBack(Run(EMPTY, ops), s.driver, s.inFlight[a.k]);
    }
  }

  lemma {:induction false} RolledBackRun(n: nat, m: nat, s: State, acts: seq<Action>, ops: seq<Op>, id: PlanId)
    requires (n <= 1 || m <= 1) && InTurn(s, ops) && IsRun(n, m, s, acts) && IsRolledBack(s.driver, id)
    ensures id in Exec(s, acts).driver.plans && Exec(s, acts).driver.plans[id] == s.driver.plans[id]
    decreases |acts|
  {
    if acts != [] {
      TurnSparesRolledBack(s, acts[0], ops, id);
      var ops' := TurnStep(n, m, s, acts[0], ops);
      RolledBackRun(n, m, Next(s, acts[0]), acts[1..], ops', id);
    }
  }

  // Overlaps that break each of them, on the plan with the empty id.

  const PLAN_FIRST := PlanUpdate("", PlanRequest("", "", "", false), 0, 0)

  const EXECUTE_FIRST := Execute("", 0, 0, Accepted)

  function VerifyFirst(hashMatch: bool): Op {
    Verify("", hashMatch, 0, 0, Accepted)
  }

  /** A race of two operations on one plan, and what it leaves of the plan. */
  lemma RaceOnOne(n: nat, m: nat, s: State, a: Op, b: Op) returns (mid: State, end: State)
    requires n >= 2 && m >= 2 && Reaches(n, m, INIT, s) && s.inFlight == map[]
    requires !a.PlanUpdate? && !b.PlanUpdate? && a.id == b.id && a.emission.Accepted? && b.emission.Accepted?
    requires CanStart(s.driver, a) && CanStart(s.driver, b) && s.driver.plans[a.id].id == a.id
    ensures Reaches(n, m, INIT, mid) && Reaches(n, m, mid, end) && Reaches(n, m, INIT, end) && end.inFlight == map[]
    ensures a.id in mid.driver.plans && mid.driver.plans[a.id] == Outcome(s.driver.plans[a.id], a)
    ensures a.id in end.driver.plans && end.driver.plans[a.id] == Outcome(s.driver.plans[a.id], b)
    ensures Log(end.driver.stored, a.id) == Log(s.driver.stored, a.id) + [During(a), After(a), During(b), After(b)]
    ensures Log(end.driver.events, a.id) == Log(s.driver.events, a.id) + [EventOf(a), EventOf(b)]
  {
    mid, end := Race(n, m, s, a, b);
    CompleteLogs(s.driver, s.driver.plans[a.id], a);
    CompleteLogs(mid.driver, s.driver.plans[b.id], b);
  }

  lemma PlannedIsReached(n: nat, m: nat) returns (s: State)
    requires n >= 1 && m >= 1
    ensures Reaches(n, m, INIT, s) && s.inFlight == map[]
    ensures "" in s.driver.plans && s.driver.plans[""] == NewPlan("", PLAN_FIRST.req, 0, 0)
    ensures Log(s.driver.stored, "") == [Planned] && Log(s.driver.events, "") == []
  {
    SequentialIsReached(n, m, [PLAN_FIRST]);
    s := State(Apply(EMPTY, PLAN_FIRST), map[]);
    assert Run(EMPTY, [PLAN_FIRST]) == s.driver;
  }

  /** Two executions load the planned plan: Executing is stored over Executed, and the event comes
      twice. */
  lemma DoubleExecution(n: nat, m: nat) returns (s: State)
    requires n >= 2 && m >= 2
    ensures Reaches(n, m, INIT, s) && s.inFlight == map[]
    ensures "" in s.driver.plans && s.driver.plans[""].state == Executed && s.driver.plans[""].id == ""
    ensures Log(s.driver.stored, "") == [Planned, Executing, Executed, Executing, Executed]
    ensures Log(s.driver.events, "") == [ExecutedEvent, ExecutedEvent]
  {
    var s0 := PlannedIsReached(n, m);
    var mid;
    mid, s := RaceOnOne(n, m, s0, EXECUTE_FIRST, EXECUTE_FIRST);
  }

  /** A whole operation stores two more states. */
  lemma TwoMore(n: nat, m: nat, s: State, op: Op) returns (s': State)
    requires n >= 1 && m >= 1 && Reaches(n, m, INIT, s) && s.inFlight == map[] && !op.PlanUpdate?
    requires CanStart(s.driver, op) && s.driver.plans[op.id].id == op.id
    ensures Reaches(n, m, INIT, s') && s'.inFlight == map[]
    ensures op.id in s'.driver.plans && s'.driver.plans[op.id] == Outcome(s.driver.plans[op.id], op)
    ensures |Log(s'.driver.stored, op.id)| == |Log(s.driver.stored, op.id)| + 2
  {
    WholeOp(n, m, s, op);
    CompleteLogs(s.driver, s.driver.plans[op.id], op);
    s' := State(Apply(s.driver, op), map[]);
  }

  /** After that the plan goes all the way to its rollback: eleven states are stored. */
  lemma LongHistory(n: nat, m: nat) returns (s: State)
    requires n >= 2 && m >= 2
    ensures Reaches(n, m, INIT, s) && |Log(s.driver.stored, "")| == 11
  {
    s := DoubleExecution(n, m);
    s := TwoMore(n, m, s, VerifyFirst(true));
    s := TwoMore(n, m, s, Activate("", 0, 0, Accepted));
    s := TwoMore(n, m, s, Rollback("", UserRequested, 0, 0, Accepted));
  }

  lemma ExecutedIsReached(n: nat, m: nat) returns (s: State)
    requires n >= 1 && m >= 1
    ensures Reaches(n, m, INIT, s) && s.inFlight == map[]
    ensures "" in s.driver.plans && s.driver.plans[""].state == Executed && s.driver.plans[""].failureClass == None
    ensures s.driver.plans[""].id == ""
  {
    s := PlannedIsReached(n, m);
    s := TwoMore(n, m, s, EXECUTE_FIRST);
  }

  /** A verification that fails is overwritten by one that loaded the plan before: the plan has
      failed and carries no failure class. */
  lemma ForgottenFailure(n: nat, m: nat) returns (s: State)
    requires n >= 2 && m >= 2
    ensures Reaches(n, m, INIT, s) && "" in s.driver.plans
    ensures Failed in Log(s.driver.stored, "") && s.driver.plans[""].failureClass == None
  {
    var s0 := ExecutedIsReached(n, m);
    var mid;
    mid, s := RaceOnOne(n, m, s0, VerifyFirst(false), VerifyFirst(true));
  }

  /** An activation that loaded the verified plan before a rollback makes the rolled-back plan
      active. */
  lemma LateActivation(n: nat, m: nat) returns (rolledBack: State, s: State)
    requires n >= 2 && m >= 2
    ensures Reaches(n, m, INIT, rolledBack) && Reaches(n, m, rolledBack, s)
    ensures "" in rolledBack.driver.plans && rolledBack.driver.plans[""].state == RolledBack
    ensures "" in s.driver.plans && s.driver.plans[""].state == Active
  {
    var s0 := ExecutedIsReached(n, m);
    WholeOp(n, m, s0, VerifyFirst(true));
    var s1 := State(Apply(s0.driver, VerifyFirst(true)), map[]);
    rolledBack, s := RaceOnOne(n, m, s1, Rollback("", UserRequested, 0, 0, Accepted), Activate("", 0, 0, Accepted));
  }

  /** Histories are legal in all runs within the limits exactly when operations on one plan do not
      overlap: at most one is in flight on each plan, or at most one in all. */
  lemma LegalExactlyWithoutOverlap(n: nat, m: nat)
    ensures HistoriesAreLegal(n, m) <==> n <= 1 || m <= 1
  {
    if n <= 1 || m <= 1 {
      forall s, id | Reaches(n, m, INIT, s) && id in s.driver.plans
        ensures LegalHistory(Log(s.driver.stored, id))
      {
        ReachableIsTidy(n, m, s, id);
      }
    } else {
      var s := DoubleExecution(n, m);
      var h := Log(s.driver.stored, "");
      assert !IsLegal(h[2], h[3]);
    }
  }

  /** Their rank rises exactly then. */
  lemma RisingExactlyWithoutOverlap(n: nat, m: nat)
    ensures HistoriesRise(n, m) <==> n <= 1 || m <= 1
  {
    if n <= 1 || m <= 1 {
      forall s, id, i, j | Reaches(n, m, INIT, s) && 0 <= i < j < |Log(s.driver.stored, id)|
        ensures Rank(Log(s.driver.stored, id)[i]) < Rank(Log(s.driver.stored, id)[j])
      {
        ReachableIsTidy(n, m, s, id);
        HistoryRises(Log(s.driver.stored, id), i, j);
      }
    } else {
      var s := DoubleExecution(n, m);
      var h := Log(s.driver.stored, "");
      assert Rank(h[2]) > Rank(h[3]);
    }
  }

  /** And they have at most nine states exactly then. */
  lemma ShortExactlyWithoutOverlap(n: nat, m: nat)
    ensures HistoriesAreShort(n, m) <==> n <= 1 || m <= 1
  {
    if n <= 1 || m <= 1 {
      forall s, id | Reaches(n, m, INIT, s)
        ensures |Log(s.driver.stored, id)| <= 9
      {
        ReachableIsTidy(n, m, s, id);
        if id in s.driver.plans {
          HistoryIsShort(Log(s.driver.stored, id));
        }
      }
    } else {
      var s := LongHistory(n, m);
    }
  }

  /** The events are in order exactly then. */
  lemma EventsOrderedExactlyWithoutOverlap(n: nat, m: nat)
    ensures EventsAreOrdered(n, m) <==> n <= 1 || m <= 1
  {
    if n <= 1 || m <= 1 {
      forall s, id | Reaches(n, m, INIT, s) && id in s.driver.plans
        ensures EventsOrdered(Log(s.driver.events, id), s.driver.plans[id].state)
      {
        ReachableIsTidy(n, m, s, id);
      }
    } else {
      var s := DoubleExecution(n, m);
      var es := Log(s.driver.events, "");
      assert EventRank(es[0]) == EventRank(es[1]);
    }
  }

  /** A failed verification is kept on record exactly then. */
  lemma FailureKeptExactlyWithoutOverlap(n: nat, m: nat)
    ensures FailuresAreKept(n, m) <==> n <= 1 || m <= 1
  {
    if n <= 1 || m <= 1 {
      forall s, id | Reaches(n, m, INIT, s) && id in s.driver.plans && Failed in Log(s.driver.stored, id)
        ensures s.driver.plans[id].failureClass == Some(VerifyMismatch)
      {
        ReachableIsTidy(n, m, s, id);
      }
    } else {
      var s := ForgottenFailure(n, m);
    }
  }

  /** And rolled-back states are terminal exactly then. */
  lemma RolledBackExactlyTerminalWithoutOverlap(n: nat, m: nat)
    ensures RolledBackIsTerminal(n, m) <==> n <= 1 || m <= 1
  {
    if n <= 1 || m <= 1 {
      forall s, s', id | Reaches(n, m, INIT, s) && Reaches(n, m, s, s') && IsRolledBack(s.driver, id)
        ensures id in s'.driver.plans && s'.driver.plans[id] == s.driver.plans[id]
      {
        var ops := ReachableInTurn(n, m, s);
        var acts :| IsRun(n, m, s, acts) && Exec(s, acts) == s';
        RolledBackRun(n, m, s, acts, ops, id);
      }
    } else {
      var rolledBack, s := LateActivation(n, m);
      assert IsRolledBack(rolledBack.driver, "");
    }
  }
}
