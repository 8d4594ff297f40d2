/**
 The runtime-owned half of an action envelope: the lifecycle phase with its time stamps, and
 the append-only list of observed conditions.
 */
module ActionEnvelope {
  import opened Wrappers

  // ---------------------------------------------------------------------------
  // Phases
  // ---------------------------------------------------------------------------

  datatype Phase = Pending | Running | Succeeded | Failed | RolledBack

  predicate IsTerminal(p: Phase) {
    p.Succeeded? || p.Failed? || p.RolledBack?
  }

  predicate CanTransition(from: Phase, to: Phase) {
    match from
    case Pending => to.Failed? || to.Running?
    case Running => to.Succeeded? || to.Failed? || to.RolledBack?
    case _ => false
  }

  // ---------------------------------------------------------------------------
  // Execution
  // ---------------------------------------------------------------------------

  /** `RollbackApplied` is the condition that a rollback was applied, not the phase. */
  datatype ConditionType =
    | PolicyEvaluated | PolicyAccepted | ApprovalRequired | ApprovalGranted | ApprovalExpired
    | Sandboxed | Executed | Verified | RollbackPossible | RollbackApplied | Idempotent | Simulated
    | DeprecatedFieldUsed

  datatype ConditionStatus = True | False | Unknown

  datatype Condition = Condition(kind: ConditionType, status: ConditionStatus, observedAt: int, message: string)

  datatype Execution = Execution(
    phase: Phase,
    phaseChangedAt: int,
    startedAt: Option<int>,
    endedAt: Option<int>,
    sandboxProfileId: Option<string>,
    conditions: seq<Condition>)

  datatype TransitionError =
    | TerminalPhase
    | IllegalTransition(from: Phase, to: Phase)
    | TimeRegression(observedAt: int, last: int)
    | TrueRetracted(kind: ConditionType, status: ConditionStatus)
    | PhaseConditionMismatch(phase: Phase, missing: seq<ConditionType>)

  function Fresh(now: int): Execution {
    Execution(Pending, now, None, None, None, [])
  }

  function Max(a: int, b: int): int {
    if a < b then b else a
  }

  predicate TransitionAllowed(e: Execution, next: Phase) {
    !IsTerminal(e.phase) && CanTransition(e.phase, next)
  }

  /** The execution after an attempt to enter `next` when the clock reads `now`. */
  function Transitioned(e: Execution, next: Phase, now: int): Execution {
    if TransitionAllowed(e, next) then
      var stamp := Max(e.phaseChangedAt, now);
      e.(phase := next,
         phaseChangedAt := stamp,
         startedAt := if e.phase.Pending? && next.Running? && e.startedAt.None? then Some(stamp) else e.startedAt,
         endedAt := if IsTerminal(next) && e.endedAt.None? then Some(stamp) else e.endedAt)
    else e
  }

  predicate ObservedTrue(cs: seq<Condition>, kind: ConditionType) {
    exists i :: 0 <= i < |cs| && cs[i].kind == kind && cs[i].status.True?
  }

  predicate Regresses(cs: seq<Condition>, c: Condition) {
    cs != [] && c.observedAt < cs[|cs| - 1].observedAt
  }

  predicate Retracts(cs: seq<Condition>, c: Condition) {
    !c.status.True? && ObservedTrue(cs, c.kind)
  }

  function WithCondition(e: Execution, c: Condition): Execution {
    if Regresses(e.conditions, c) || Retracts(e.conditions, c) then e
    else e.(conditions := e.conditions + [c])
  }

  /** The conditions a phase stands for. */
  function Canonical(p: Phase): seq<ConditionType> {
    match p
    case Pending => []
    case Running => [PolicyEvaluated, Sandboxed]
    case Succeeded => [PolicyEvaluated, Sandboxed, Executed, Verified]
    case Failed => [PolicyEvaluated]
    case RolledBack => [PolicyEvaluated, Sandboxed, Executed, RollbackApplied]
  }

  /** Every condition the phase stands for was observed. */
  ghost predicate Consistent(e: Execution) {
    forall kind :: kind in Canonical(e.phase) ==> ObservedTrue(e.conditions, kind)
  }

  /** The kinds that were not observed true, in order. */
  ghost function Lacking(cs: seq<Condition>, kinds: seq<ConditionType>): (r: seq<ConditionType>)
    ensures r == [] <==> forall i :: 0 <= i < |kinds| ==> ObservedTrue(cs, kinds[i])
  {
    if kinds == [] then []
    else
      var kind := kinds[|kinds| - 1];
      Lacking(cs, kinds[..|kinds| - 1]) + if ObservedTrue(cs, kind) then [] else [kind]
  }

  /** `xs` is `ys` with some elements left out. */
  predicate IsSubsequence<T(==)>(xs: seq<T>, ys: seq<T>) {
    if xs == [] then true
    else if ys == [] then false
    else if xs[|xs| - 1] == ys[|ys| - 1] then IsSubsequence(xs[..|xs| - 1], ys[..|ys| - 1])
    else IsSubsequence(xs, ys[..|ys| - 1])
  }

  lemma {:induction false} LackingMeans(cs: seq<Condition>, kinds: seq<ConditionType>)
    ensures forall kind :: kind in Lacking(cs, kinds) <==> kind in kinds && !ObservedTrue(cs, kind)
  {
    if kinds != [] {
      LackingMeans(cs, kinds[..|kinds| - 1]);
      assert kinds == kinds[..|kinds| - 1] + [kinds[|kinds| - 1]];
    }
  }

  lemma {:induction false} LackingIsInOrder(cs: seq<Condition>, kinds: seq<ConditionType>)
    ensures IsSubsequence(Lacking(cs, kinds), kinds)
  {
    if kinds != [] {
      var front, kind := kinds[..|kinds| - 1], kinds[|kinds| - 1];
      var xs := Lacking(cs, front);
      LackingIsInOrder(cs, front);
      if !ObservedTrue(cs, kind) {
        assert (xs + [kind])[..|xs|] == xs;
      } else {
        LackingMeans(cs, front);
        assert xs + [] == xs;
        assert xs != [] ==> xs[|xs| - 1] in xs;
      }
    }
  }

  /** A validation passes exactly when all these kinds were observed true, and otherwise lists those
      that were not. */
  ghost predicate IsVerdict(r: Result<(), TransitionError>, e: Execution, kinds: seq<ConditionType>) {
    r == if forall i :: 0 <= i < |kinds| ==> ObservedTrue(e.conditions, kinds[i]) then Ok(())
         else Err(PhaseConditionMismatch(e.phase, Lacking(e.conditions, kinds)))
  }

  // ---------------------------------------------------------------------------
  // The envelope
  // ---------------------------------------------------------------------------

  class Envelope {
    var execution: Execution

    constructor (now: int)
      ensures execution == Fresh(now) == Execution(Pending, now, None, None, None, [])
    {
      execution := Fresh(now);
    }

    method TransitionTo(next: Phase, now: int) returns (r: Result<(), TransitionError>)
      modifies this
      ensures execution == Transitioned(old(execution), next, now)
      ensures r.Ok? <==> (old(execution).phase, next) in {
                           (Pending, Running), (Pending, Failed),
                           (Running, Succeeded), (Running, Failed), (Running, RolledBack)}
      ensures r.Err? ==> r.error == if old(execution).phase in {Succeeded, Failed, RolledBack} then TerminalPhase
                                    else IllegalTransition(old(execution).phase, next)
      ensures r.Err? ==> execution == old(execution)
      ensures r.Ok? ==>
                var e := old(execution);
                var stamp := if now < e.phaseChangedAt then e.phaseChangedAt else now;
                execution == Execution(next, stamp,
                                       if next == Running && e.startedAt == None then Some(stamp) else e.startedAt,
                                       if next in {Succeeded, Failed, RolledBack} && e.endedAt == None then Some(stamp)
                                       else e.endedAt,
                                       e.sandboxProfileId, e.conditions)
    {
      if IsTerminal(execution.phase) {
        return Err(TerminalPhase);
      }
      if !CanTransition(execution.phase, next) {
        return Err(IllegalTransition(execution.phase, next));
      }
      var stamp := if now < execution.phaseChangedAt then execution.phaseChangedAt else now;
      if execution.phase.Pending? && next.Running? && execution.startedAt.None? {
        execution := execution.(startedAt := Some(stamp));
      }
      if IsTerminal(next) && execution.endedAt.None? {
        execution := execution.(endedAt := Some(stamp));
      }
      execution := execution.(phase := next, phaseChangedAt := stamp);
      r := Ok(());
    }

    method AddCondition(c: Condition) returns (r: Result<(), TransitionError>)
      modifies this
      ensures execution == WithCondition(old(execution), c)
      ensures r.Ok? <==>
              var cs := old(execution).conditions;
              && (cs == [] || cs[|cs| - 1].observedAt <= c.observedAt)
              && (c.status == True || forall i :: 0 <= i < |cs| && cs[i].kind == c.kind ==> cs[i].status != True)
      ensures execution == if r.Ok? then old(execution).(conditions := old(execution).conditions + [c])
                           else old(execution)
      ensures r.Err? ==>
                var cs := execution.conditions;
                r.error == if cs != [] && c.observedAt < cs[|cs| - 1].observedAt
                           then TimeRegression(c.observedAt, cs[|cs| - 1].observedAt)
                           else TrueRetracted(c.kind, c.status)
    {
      var cs := execution.conditions;
      if cs != [] && c.observedAt < cs[|cs| - 1].observedAt {
        return Err(TimeRegression(c.observedAt, cs[|cs| - 1].observedAt));
      }
      if c.status != True {
        for i := 0 to |cs|
          invariant execution == old(execution)
          invariant forall j :: 0 <= j < i ==> !(cs[j].kind == c.kind && cs[j].status.True?)
        {
          if cs[i].kind == c.kind && cs[i].status == True {
            return Err(TrueRetracted(c.kind, c.status));
          }
        }
      }
      execution := execution.(conditions := cs + [c]);
      r := Ok(());
    }

    /** Passes exactly when the phase is backed by its conditions, and otherwise names, in
        canonical order, the ones that are missing. */
    method ValidatePhaseConditions() returns (r: Result<(), TransitionError>)
      ensures r.Ok? <==> Consistent(execution)
      ensures r.Err? ==> r.error.PhaseConditionMismatch? && r.error.phase == execution.phase
      ensures r.Err? ==> forall kind :: kind in r.error.missing <==>
                           kind in Canonical(execution.phase) && !ObservedTrue(execution.conditions, kind)
      ensures r.Err? ==> IsSubsequence(r.error.missing, Canonical(execution.phase))
      ensures match execution.phase
              case Pending => r.Ok?
              case Failed => IsVerdict(r, execution, [PolicyEvaluated])
              case Running => IsVerdict(r, execution, [PolicyEvaluated, Sandboxed])
              case Succeeded => IsVerdict(r, execution, [PolicyEvaluated, Sandboxed, Executed, Verified])
              case RolledBack => IsVerdict(r, execution, [PolicyEvaluated, Sandboxed, Executed, RollbackApplied])
    {
      var required := Canonical(execution.phase);
      var missing := [];
      for i := 0 to |required|
        invariant missing == Lacking(execution.conditions, required[..i])
      {
        assert required[..i + 1][..i] == required[..i];
        if !ObservedTrue(execution.conditions, required[i]) {
          missing := missing + [required[i]];
        }
      }
      assert required[..|required|] == required;
      LackingMeans(execution.conditions, required);
      LackingIsInOrder(execution.conditions, required);
      r := if missing == [] then Ok(()) else Err(PhaseConditionMismatch(execution.phase, missing));
    }
  }

  // ---------------------------------------------------------------------------
  // Runs
  // ---------------------------------------------------------------------------

  /** An attempt to change the phase, with the clock reading it gets, or to add a condition. */
  datatype Op = Enter(next: Phase, now: int) | Observe(c: Condition)

  function Apply(e: Execution, op: Op): Execution {
    match op
    case Enter(next, now) => Transitioned(e, next, now)
    case Observe(c) => WithCondition(e, c)
  }

  function Run(e: Execution, ops: seq<Op>): Execution
    decreases |ops|
  {
    if ops == [] then e else Run(Apply(e, ops[0]), ops[1..])
  }

  /** The transitions of a run that succeeded. */
  function Successes(e: Execution, ops: seq<Op>): seq<Op>
    decreases |ops|
  {
    if ops == [] then []
    else
      (if ops[0].Enter? && TransitionAllowed(e, ops[0].next) then [ops[0]] else [])
      + Successes(Apply(e, ops[0]), ops[1..])
  }

  /** What a run from `e` may have gone through: nothing, one step, or two through Running. */
  ghost predicate LegalItinerary(from: Phase, to: Phase, successes: seq<Op>) {
    && |successes| <= 2
    && (forall i :: 0 <= i < |successes| ==> successes[i].Enter?)
    && match |successes|
       case 0 => to == from
       case 1 => CanTransition(from, successes[0].next) && to == successes[0].next
       case _ => && from.Pending? && successes[0].next.Running?
                 && CanTransition(Running, successes[1].next) && to == successes[1].next
  }

  /** The latest of a start and the clock readings of some transitions. */
  ghost function Latest(start: int, entries: seq<Op>): int
    decreases |entries|
  {
    if entries == [] then start
    else if entries[0].Enter? then Latest(Max(start, entries[0].now), entries[1..])
    else Latest(start, entries[1..])
  }

  /** At most two attempts succeed, along legal edges, and the phase stamp is the latest clock
      reading of a success, whatever the clock did. */
  lemma {:induction false} RunItinerary(e: Execution, ops: seq<Op>)
    ensures LegalItinerary(e.phase, Run(e, ops).phase, Successes(e, ops))
    ensures Run(e, ops).phaseChangedAt == Latest(e.phaseChangedAt, Successes(e, ops))
    decreases |ops|
  {
    if ops != [] {
      RunItinerary(Apply(e, ops[0]), ops[1..]);
      var head := if ops[0].Enter? && TransitionAllowed(e, ops[0].next) then [ops[0]] else [];
      var tail := Successes(Apply(e, ops[0]), ops[1..]);
      assert Successes(e, ops) == head + tail;
      if head == [] {
        assert head + tail == tail;
      } else {
        assert (head + tail)[0] == ops[0] && (head + tail)[1..] == tail;
      }
    }
  }

  /** The phases that were entered, in order. */
  ghost function PhasesOf(successes: seq<Op>): seq<Phase> {
    if successes == [] then []
    else (if successes[0].Enter? then [successes[0].next] else []) + PhasesOf(successes[1..])
  }

  /** The phases that a run from a fresh execution enters, one way for each phase it may end in but
      Failed, which has two: without running and after it. */
  lemma RunPhases(created: int, ops: seq<Op>)
    ensures var phases := PhasesOf(Successes(Fresh(created), ops));
            match Run(Fresh(created), ops).phase
            case Pending => phases == []
            case Running => phases == [Running]
            case Succeeded => phases == [Running, Succeeded]
            case Failed => phases == [Failed] || phases == [Running, Failed]
            case RolledBack => phases == [Running, RolledBack]
  {
    RunItinerary(Fresh(created), ops);
    var successes := Successes(Fresh(created), ops);
    if |successes| >= 1 {
      assert PhasesOf(successes) == [successes[0].next] + PhasesOf(successes[1..]);
    }
    if |successes| == 2 {
      assert successes[1..] == [successes[1]];
      assert PhasesOf([successes[1]]) == [successes[1].next] + PhasesOf([]);
    } else if |successes| == 1 {
      assert successes[1..] == [];
    }
  }

  /** The phase stamp never falls, even when the clock does. */
  lemma {:induction false} PhaseStampRises(e: Execution, ops: seq<Op>)
    ensures e.phaseChangedAt <= Run(e, ops).phaseChangedAt
    decreases |ops|
  {
    if ops != [] {
      PhaseStampRises(Apply(e, ops[0]), ops[1..]);
    }
  }

  /** The time stamps an execution may carry, given whether Running was entered. */
  ghost predicate Stamped(e: Execution, ran: bool) {
    && (e.startedAt.Some? <==> ran)
    && (e.phase.Pending? ==> !ran)
    && (e.phase.Running? ==> ran)
    && (e.endedAt.Some? <==> IsTerminal(e.phase))
    && (e.endedAt.Some? ==> e.endedAt.value == e.phaseChangedAt)
    && (e.startedAt.Some? ==> e.startedAt.value <= e.phaseChangedAt)
    && (e.phase.Running? ==> e.startedAt.value == e.phaseChangedAt)
  }

  ghost predicate EnteredRunning(successes: seq<Op>) {
    exists i :: 0 <= i < |successes| && successes[i].Enter? && successes[i].next.Running?
  }

  lemma {:induction false} RunStampsFrom(e: Execution, ran: bool, ops: seq<Op>)
    requires Stamped(e, ran)
    ensures Stamped(Run(e, ops), ran || EnteredRunning(Successes(e, ops)))
    decreases |ops|
  {
    if ops != [] {
      var head := if ops[0].Enter? && TransitionAllowed(e, ops[0].next) then [ops[0]] else [];
      var tail := Successes(Apply(e, ops[0]), ops[1..]);
      var ran' := ran || EnteredRunning(head);
      RunStampsFrom(Apply(e, ops[0]), ran', ops[1..]);
      EnteredRunningSplits(head, tail);
    }
  }

  lemma EnteredRunningSplits(head: seq<Op>, tail: seq<Op>)
    ensures EnteredRunning(head + tail) <==> EnteredRunning(head) || EnteredRunning(tail)
  {
    if i :| 0 <= i < |head| && head[i].Enter? && head[i].next.Running? {
      assert (head + tail)[i] == head[i];
    }
    if i :| 0 <= i < |tail| && tail[i].Enter? && tail[i].next.Running? {
      assert (head + tail)[|head| + i] == tail[i];
    }
  }

  /** After any attempts and any clock readings: `endedAt` is set iff the phase is terminal and is
      then the phase stamp, `startedAt` is set iff Running was entered, and it is no later than
      `endedAt`. */
  lemma RunStamps(created: int, ops: seq<Op>)
    ensures var e := Run(Fresh(created), ops);
            && (e.endedAt.Some? <==> IsTerminal(e.phase))
            && (e.endedAt.Some? ==> e.endedAt.value == e.phaseChangedAt)
            && (e.startedAt.Some? <==> EnteredRunning(Successes(Fresh(created), ops)))
            && (e.startedAt.Some? && e.endedAt.Some? ==> e.startedAt.value <= e.endedAt.value)
  {
    RunStampsFrom(Fresh(created), false, ops);
  }

  /** A stamp that is set stays as it is. */
  lemma {:induction false} StampsAreSetOnce(e: Execution, ops: seq<Op>)
    ensures e.startedAt.Some? ==> Run(e, ops).startedAt == e.startedAt
    ensures e.endedAt.Some? ==> Run(e, ops).endedAt == e.endedAt
    decreases |ops|
  {
    if ops != [] {
      StampsAreSetOnce(Apply(e, ops[0]), ops[1..]);
    }
  }

  // ---------------------------------------------------------------------------
  // Conditions over runs
  // ---------------------------------------------------------------------------

  ghost predicate SortedByTime(cs: seq<Condition>) {
    forall i, j :: 0 <= i < j < |cs| ==> cs[i].observedAt <= cs[j].observedAt
  }

  /** Once a kind was observed true, every later entry of that kind is true. */
  ghost predicate TruthLasts(cs: seq<Condition>) {
    forall i, j :: 0 <= i < j < |cs| && cs[i].kind == cs[j].kind && cs[i].status.True? ==> cs[j].status.True?
  }

  /** The last entry of the kind is true. */
  ghost predicate LatestIsTrue(cs: seq<Condition>, kind: ConditionType) {
    exists i :: 0 <= i < |cs| && cs[i].kind == kind && cs[i].status.True? &&
                forall j :: i < j < |cs| ==> cs[j].kind != kind
  }

  /** Whatever the list was, a run only adds to its end. */
  lemma {:induction false} ConditionsAreAppendOnly(e: Execution, ops: seq<Op>)
    ensures e.conditions <= Run(e, ops).conditions
    decreases |ops|
  {
    if ops != [] {
      ConditionsAreAppendOnly(Apply(e, ops[0]), ops[1..]);
    }
  }

  /** A run keeps the list in time order and true kinds true. */
  lemma {:induction false} RunConditions(e: Execution, ops: seq<Op>)
    requires SortedByTime(e.conditions) && TruthLasts(e.conditions)
    ensures SortedByTime(Run(e, ops).conditions) && TruthLasts(Run(e, ops).conditions)
    decreases |ops|
  {
    if ops != [] {
      assert SortedByTime(Apply(e, ops[0]).conditions) && TruthLasts(Apply(e, ops[0]).conditions);
      RunConditions(Apply(e, ops[0]), ops[1..]);
    }
  }

  lemma {:induction false} LatestOfKind(cs: seq<Condition>, kind: ConditionType, n: nat)
    requires TruthLasts(cs) && n <= |cs|
    requires ObservedTrue(cs[..n], kind)
    requires forall j :: n <= j < |cs| ==> cs[j].kind != kind
    ensures LatestIsTrue(cs, kind)
  {
    var k :| 0 <= k < n && cs[..n][k].kind == kind && cs[..n][k].status.True?;
    if cs[n - 1].kind == kind {
      assert k < n - 1 ==> cs[k].status.True?;
      assert cs[n - 1].status.True?;
    } else {
      assert cs[..n - 1][k] == cs[..n][k];
      LatestOfKind(cs, kind, n - 1);
    }
  }

  lemma TruthIsLatest(cs: seq<Condition>, kind: ConditionType)
    requires TruthLasts(cs)
    ensures ObservedTrue(cs, kind) <==> LatestIsTrue(cs, kind)
  {
    if ObservedTrue(cs, kind) {
      assert cs[..|cs|] == cs;
      LatestOfKind(cs, kind, |cs|);
    }
  }

  /** The list is in time order, and a kind has a true entry exactly when its
      latest entry is true. */
  lemma ConditionsAfterRun(created: int, ops: seq<Op>, kind: ConditionType)
    ensures var cs := Run(Fresh(created), ops).conditions;
            SortedByTime(cs) && (ObservedTrue(cs, kind) <==> LatestIsTrue(cs, kind))
  {
    RunConditions(Fresh(created), ops);
    TruthIsLatest(Run(Fresh(created), ops).conditions, kind);
  }

  /** What was observed true stays so, whatever the list was. */
  lemma TruthOnlyGrows(e: Execution, ops: seq<Op>, kind: ConditionType)
    ensures ObservedTrue(e.conditions, kind) ==> ObservedTrue(Run(e, ops).conditions, kind)
  {
    ConditionsAreAppendOnly(e, ops);
    var cs' := Run(e, ops).conditions;
    if i :| 0 <= i < |e.conditions| && e.conditions[i].kind == kind && e.conditions[i].status.True? {
      assert cs'[i] == e.conditions[i];
    }
  }

  /** A phase backed by its conditions stays backed for as long as the phase is the same. */
  lemma ConsistencyLasts(e: Execution, ops: seq<Op>)
    requires Consistent(e) && Run(e, ops).phase == e.phase
    ensures Consistent(Run(e, ops))
  {
    forall kind | kind in Canonical(e.phase)
      ensures ObservedTrue(Run(e, ops).conditions, kind)
    {
      TruthOnlyGrows(e, ops, kind);
    }
  }
}
