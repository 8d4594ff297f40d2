/**
 Interleavings of the container session driver's operations. An operation that gives up the
 lock is in flight between its sections; the others happen in one step.
 */
module ContainerProtocol {
  import opened Wrappers
  import opened Timing
  import opened ContainerSessions

  type OpId = nat

  /** Where an operation in flight stands, and the session its next write goes to. */
  datatype Stage =
    | OpenChecked
    | OpenInserted(id: SessionId)
    | OpenStarting(id: SessionId)
    | PauseChecked(id: SessionId)
    | ResumeChecked(id: SessionId)

  /** The session table, the operations in flight, and two tallies: the termination receipts
      handed out for each session and the writes that landed on it after it was reclaimed. */
  datatype State = State(
    sessions: Sessions,
    inFlight: map<OpId, Stage>,
    receipts: multiset<SessionId>,
    late: multiset<SessionId>)

  const INIT := State(map[], map[], multiset{}, multiset{})

  datatype Action =
    | OpenCheck(op: OpId)
    | OpenInsert(op: OpId, id: SessionId, req: Request, now: int)
    | OpenStart(op: OpId)
    | OpenLaunch(op: OpId, launched: Option<string>)
    | PauseCheck(op: OpId, id: SessionId)
    | PauseFinish(op: OpId, paused: bool)
    | ResumeCheck(op: OpId, id: SessionId)
    | ResumeFinish(op: OpId, resumed: bool)
    | Close(id: SessionId)
    | Get(id: SessionId, now: int, probe: Probe)
    | Beat(id: SessionId, checkedAt: int, stampedAt: int)

  /** Does the action begin an operation, rather than continue one in flight? */
  predicate Begins(a: Action) {
    a.OpenCheck? || a.PauseCheck? || a.ResumeCheck? || a.Close? || a.Get? || a.Beat?
  }

  /** Operations in flight while the action happens. */
  function Busy(s: State, a: Action): nat {
    |s.inFlight| + if Begins(a) then 1 else 0
  }

  /** A write to `id` lands: it is late when the session had been reclaimed. */
  function Landed(s: State, id: SessionId, sessions: Sessions, inFlight: map<OpId, Stage>): State {
    State(sessions, inFlight, s.receipts,
          if IsReclaimed(s.sessions, id) then s.late + multiset{id} else s.late)
  }

  /** One section of one operation. An action whose operation is not where the action needs it
      does nothing. */
  function Next(max: nat, s: State, a: Action): State {
    match a
    case OpenCheck(op) =>
      if op !in s.inFlight && CountedLive(s.sessions) < max then
        s.(inFlight := s.inFlight[op := OpenChecked])
      else s
    case OpenInsert(op, id, req, now) =>
      if op in s.inFlight && s.inFlight[op].OpenChecked? then
        Landed(s, id, s.sessions[id := FreshHandle(req, now)], s.inFlight[op := OpenInserted(id)])
      else s
    case OpenStart(op) =>
      if op in s.inFlight && s.inFlight[op].OpenInserted? then
        var id := s.inFlight[op].id;
        Landed(s, id, WithState(s.sessions, id, Starting), s.inFlight[op := OpenStarting(id)])
      else s
    case OpenLaunch(op, launched) =>
      if op in s.inFlight && s.inFlight[op].OpenStarting? then
        var id := s.inFlight[op].id;
        if launched.Some? then Landed(s, id, Activated(s.sessions, id, launched.value), s.inFlight - {op})
        else s.(inFlight := s.inFlight - {op})
      else s
    case PauseCheck(op, id) =>
      if op !in s.inFlight && id in s.sessions && s.sessions[id].state.Active? then
        s.(inFlight := s.inFlight[op := PauseChecked(id)])
      else s
    case PauseFinish(op, paused) =>
      if op in s.inFlight && s.inFlight[op].PauseChecked? then
        var id := s.inFlight[op].id;
        if paused then Landed(s, id, WithState(s.sessions, id, Paused), s.inFlight - {op})
        else s.(inFlight := s.inFlight - {op})
      else s
    case ResumeCheck(op, id) =>
      if op !in s.inFlight && id in s.sessions && s.sessions[id].state.Paused? then
        s.(inFlight := s.inFlight[op := ResumeChecked(id)])
      else s
    case ResumeFinish(op, resumed) =>
      if op in s.inFlight && s.inFlight[op].ResumeChecked? then
        var id := s.inFlight[op].id;
        if resumed then Landed(s, id, WithState(s.sessions, id, Active), s.inFlight - {op})
        else s.(inFlight := s.inFlight - {op})
      else s
    case Close(id) =>
      if IsLive(s.sessions, id) then
        s.(sessions := WithState(s.sessions, id, Reclaimed), receipts := s.receipts + multiset{id})
      else s
    case Get(id, now, probe) => s.(sessions := AfterGet(s.sessions, id, now, probe))
    case Beat(id, checkedAt, stampedAt) => s.(sessions := AfterHeartbeat(s.sessions, id, checkedAt, stampedAt))
  }

  /** An open mints an id that the table does not hold. */
  predicate MintsFresh(s: State, a: Action) {
    a.OpenInsert? ==> a.id !in s.sessions
  }

  /** The operations in flight that will still write to the session. */
  function On(inFlight: map<OpId, Stage>, id: SessionId): set<OpId> {
    set op | op in inFlight && !inFlight[op].OpenChecked? && inFlight[op].id == id
  }

  /** At most `n` operations are in flight while the action happens, and at most `m` on the session
      that it begins to work on. */
  predicate Within(n: nat, m: nat, s: State, a: Action) {
    Busy(s, a) <= n && (Begins(a) && !a.OpenCheck? ==> |On(s.inFlight, a.id)| + 1 <= m)
  }

  /** A run within these limits, and with fresh ids if `unique`. */
  predicate IsRun(max: nat, n: nat, m: nat, unique: bool, s: State, acts: seq<Action>)
    decreases |acts|
  {
    acts == [] ||
    (Within(n, m, s, acts[0]) && (unique ==> MintsFresh(s, acts[0])) &&
     IsRun(max, n, m, unique, Next(max, s, acts[0]), acts[1..]))
  }

  function Exec(max: nat, s: State, acts: seq<Action>): State
    decreases |acts|
  {
    if acts == [] then s else Exec(max, Next(max, s, acts[0]), acts[1..])
  }

  ghost predicate Reaches(max: nat, n: nat, m: nat, unique: bool, s: State, s': State) {
    exists acts :: IsRun(max, n, m, unique, s, acts) && Exec(max, s, acts) == s'
  }

  lemma {:induction false} RunAppend(max: nat, n: nat, m: nat, unique: bool, s: State, acts: seq<Action>, a: Action)
    requires IsRun(max, n, m, unique, s, acts)
    requires Within(n, m, Exec(max, s, acts), a) && (unique ==> MintsFresh(Exec(max, s, acts), a))
    ensures IsRun(max, n, m, unique, s, acts + [a])
    ensures Exec(max, s, acts + [a]) == Next(max, Exec(max, s, acts), a)
    decreases |acts|
  {
    if acts == [] {
      assert acts + [a] == [a];
    } else {
      RunAppend(max, n, m, unique, Next(max, s, acts[0]), acts[1..], a);
      assert (acts + [a])[1..] == acts[1..] + [a];
    }
  }

  /** One more step keeps a state reachable. */
  lemma ReachStep(max: nat, n: nat, m: nat, unique: bool, s: State, s': State, a: Action)
    requires Reaches(max, n, m, unique, s, s')
    requires Within(n, m, s', a) && (unique ==> MintsFresh(s', a))
    ensures Reaches(max, n, m, unique, s, Next(max, s', a))
  {
    var acts :| IsRun(max, n, m, unique, s, acts) && Exec(max, s, acts) == s';
    RunAppend(max, n, m, unique, s, acts, a);
  }

  lemma ReachHere(max: nat, n: nat, m: nat, unique: bool, s: State)
    ensures Reaches(max, n, m, unique, s, s)
  {
    assert IsRun(max, n, m, unique, s, []) && Exec(max, s, []) == s;
  }

  // ---------------------------------------------------------------------------
  // The quota
  // ---------------------------------------------------------------------------

  /** Sessions that operations in flight will still write to. */
  ghost function Targets(inFlight: map<OpId, Stage>): set<SessionId> {
    set op | op in inFlight && !inFlight[op].OpenChecked? :: inFlight[op].id
  }

  /** Opens past the quota check that have not inserted their session. */
  ghost function Admitted(inFlight: map<OpId, Stage>): set<OpId> {
    set op | op in inFlight && inFlight[op].OpenChecked?
  }

  /** The sessions that are live or will be written to. */
  ghost function Exposed(s: State): set<SessionId> {
    Live(s.sessions) + Targets(s.inFlight)
  }

  /** What may be live without another quota check. */
  ghost function Exposure(s: State): nat {
    |Exposed(s)| + |Admitted(s.inFlight)|
  }

  lemma {:induction false} WritersBound(m: map<OpId, Stage>, writers: set<OpId>)
    requires forall op :: op in writers ==> op in m && !m[op].OpenChecked?
    ensures |set op | op in writers :: m[op].id| <= |writers|
  {
    var ids := set op | op in writers :: m[op].id;
    if writers != {} {
      var op :| op in writers;
      var rest := writers - {op};
      WritersBound(m, rest);
      assert ids == (set o | o in rest :: m[o].id) + {m[op].id};
    } else {
      assert ids == {};
    }
  }

  /** An operation in flight exposes at most one session. */
  lemma InFlightExposure(m: map<OpId, Stage>)
    ensures |Targets(m)| + |Admitted(m)| <= |m|
  {
    var writers := m.Keys - Admitted(m);
    assert Targets(m) == (set op | op in writers :: m[op].id);
    WritersBound(m, writers);
    assert m.Keys == writers + Admitted(m);
    assert |m.Keys| == |writers| + |Admitted(m)|;
  }

  lemma UnionCardinality<T>(a: set<T>, b: set<T>)
    ensures |a + b| <= |a| + |b|
  {
    assert a + b == a + (b - a);
    assert |a + b| == |a| + |b - a|;
    SubsetCardinality(b - a, b);
  }

  /** A write in flight that moves on or ends keeps every other operation where it was. */
  lemma TargetsAfter(m: map<OpId, Stage>, m': map<OpId, Stage>, op: OpId)
    requires forall o :: o in m' && o != op ==> o in m && m[o] == m'[o]
    ensures Targets(m') <= Targets(m) + (if op in m' && !m'[op].OpenChecked? then {m'[op].id} else {})
  {
    forall id | id in Targets(m')
      ensures id in Targets(m) + (if op in m' && !m'[op].OpenChecked? then {m'[op].id} else {})
    {
      var o :| o in m' && !m'[o].OpenChecked? && m'[o].id == id;
    }
  }

  /** What is exposed is bounded by the live sessions and the operations in flight. */
  lemma ExposureBound(s: State)
    ensures Exposure(s) <= |Live(s.sessions)| + |s.inFlight|
  {
    InFlightExposure(s.inFlight);
    UnionCardinality(Live(s.sessions), Targets(s.inFlight));
  }

  lemma OneMore(m: map<OpId, Stage>, op: OpId, stage: Stage)
    requires op !in m
    ensures |m[op := stage]| == |m| + 1
  {
    var m' := m[op := stage];
    assert m'.Keys == m.Keys + {op};
    assert |m'.Keys| == |m.Keys| + 1;
  }

  /** Passing the quota check raises the exposure to at most the live sessions plus the operations
      in flight, the new one included. */
  lemma AdmissionExposure(max: nat, s: State, op: OpId)
    requires op !in s.inFlight && CountedLive(s.sessions) < max
    ensures Exposure(Next(max, s, OpenCheck(op))) <= |Live(s.sessions)| + |s.inFlight| + 1
  {
    OneMore(s.inFlight, op, OpenChecked);
    ExposureBound(s.(inFlight := s.inFlight[op := OpenChecked]));
  }

  /** Which operation in flight the action moves, if any. */
  ghost predicate Moves(s: State, a: Action) {
    && !a.OpenCheck? && !a.Close? && !a.Get? && !a.Beat?
    && if a.PauseCheck? || a.ResumeCheck? then a.op !in s.inFlight else a.op in s.inFlight
  }

  lemma OpenMoves(max: nat, s: State, a: Action)
    requires Moves(s, a) && (a.OpenInsert? || a.OpenStart? || a.OpenLaunch?) && Next(max, s, a) != s
    ensures Exposed(Next(max, s, a)) <= Exposed(s) + if a.OpenInsert? then {a.id} else {}
    ensures Admitted(Next(max, s, a).inFlight) == Admitted(s.inFlight) - if a.OpenInsert? then {a.op} else {}
  {
    var s' := Next(max, s, a);
    TargetsAfter(s.inFlight, s'.inFlight, a.op);
    if a.op in s.inFlight && !s.inFlight[a.op].OpenChecked? {
      assert s.inFlight[a.op].id in Targets(s.inFlight);
    }
  }

  lemma SwitchMoves(max: nat, s: State, a: Action)
    requires Moves(s, a) && !a.OpenInsert? && !a.OpenStart? && !a.OpenLaunch? && Next(max, s, a) != s
    ensures Exposed(Next(max, s, a)) <= Exposed(s)
    ensures Admitted(Next(max, s, a).inFlight) == Admitted(s.inFlight)
  {
    var s' := Next(max, s, a);
    TargetsAfter(s.inFlight, s'.inFlight, a.op);
    if a.op in s.inFlight && !s.inFlight[a.op].OpenChecked? {
      assert s.inFlight[a.op].id in Targets(s.inFlight);
    }
  }

  /** Inserting, writing, giving up, checking a state: nothing new is exposed but the id that an
      admitted open inserts. */
  lemma MoveExposure(max: nat, s: State, a: Action)
    requires Moves(s, a) && Next(max, s, a) != s
    ensures Exposed(Next(max, s, a)) <= Exposed(s) + if a.OpenInsert? then {a.id} else {}
    ensures Admitted(Next(max, s, a).inFlight) == Admitted(s.inFlight) - if a.OpenInsert? then {a.op} else {}
  {
    if a.OpenInsert? || a.OpenStart? || a.OpenLaunch? {
      OpenMoves(max, s, a);
    } else {
      SwitchMoves(max, s, a);
    }
  }

  lemma InsertExposure(max: nat, s: State, a: Action)
    requires a.OpenInsert? && Next(max, s, a) != s
    ensures Exposure(Next(max, s, a)) <= Exposure(s)
  {
    var s' := Next(max, s, a);
    MoveExposure(max, s, a);
    SubsetCardinality(Exposed(s'), Exposed(s) + {a.id});
    assert |Exposed(s) + {a.id}| <= |Exposed(s)| + 1;
    assert |Admitted(s.inFlight) - {a.op}| == |Admitted(s.inFlight)| - 1;
  }

  lemma CalmExposure(max: nat, s: State, a: Action)
    requires !a.OpenCheck? && !a.OpenInsert? && Next(max, s, a) != s
    ensures Exposure(Next(max, s, a)) <= Exposure(s)
  {
    var s' := Next(max, s, a);
    if a.Close? || a.Get? || a.Beat? {
      assert Live(s'.sessions) <= Live(s.sessions);
    } else {
      MoveExposure(max, s, a);
      assert Admitted(s'.inFlight) == Admitted(s.inFlight);
    }
    SubsetCardinality(Exposed(s'), Exposed(s));
  }

  /** Only a passed quota check raises the exposure, in any table, and then to at most the live
      sessions plus the operations in flight. */
  lemma ExposureStep(max: nat, s: State, a: Action)
    ensures || Exposure(Next(max, s, a)) <= Exposure(s)
            || (CountedLive(s.sessions) < max && Exposure(Next(max, s, a)) <= |Live(s.sessions)| + Busy(s, a))
  {
    var s' := Next(max, s, a);
    if s' != s {
      if a.OpenCheck? {
        AdmissionExposure(max, s, a.op);
      } else if a.OpenInsert? {
        InsertExposure(max, s, a);
      } else {
        CalmExposure(max, s, a);
      }
    }
  }

  /** Below 2^32 the cast loses nothing. */
  lemma CountIsExact(s: State)
    requires Exposure(s) < U32_RANGE
    ensures CountedLive(s.sessions) == |Live(s.sessions)|
  {
    SubsetCardinality(Live(s.sessions), Exposed(s));
  }

  lemma ExposureStaysBelow(max: nat, n: nat, s: State, a: Action)
    requires n >= 1 && max + n <= U32_RANGE
    requires Busy(s, a) <= n && Exposure(s) <= max + n - 1
    ensures Exposure(Next(max, s, a)) <= max + n - 1
  {
    CountIsExact(s);
    ExposureStep(max, s, a);
  }

  lemma {:induction false} ExposureRun(max: nat, n: nat, m: nat, unique: bool, s: State, acts: seq<Action>)
    requires n >= 1 && max + n <= U32_RANGE
    requires IsRun(max, n, m, unique, s, acts)
    requires Exposure(s) <= max + n - 1
    ensures Exposure(Exec(max, s, acts)) <= max + n - 1
    decreases |acts|
  {
    if acts != [] {
      ExposureStaysBelow(max, n, s, acts[0]);
      ExposureRun(max, n, m, unique, Next(max, s, acts[0]), acts[1..]);
    }
  }

  /** With a quota of zero nothing is ever opened. */
  lemma {:induction false} ZeroQuota(n: nat, m: nat, unique: bool, acts: seq<Action>)
    requires IsRun(0, n, m, unique, INIT, acts)
    ensures Exec(0, INIT, acts) == INIT
    decreases |acts|
  {
    if acts != [] {
      assert Next(0, INIT, acts[0]) == INIT;
      ZeroQuota(n, m, unique, acts[1..]);
    }
  }

  /** With at most `n` operations in flight, at most `max + n - 1` sessions are live, as long as the
      32-bit count cannot wrap around on the way; `LiveBoundExactly` shows that this is needed. */
  lemma LiveBound(max: nat, n: nat, m: nat, s: State)
    requires n >= 1 && (max == 0 || max + n <= U32_RANGE)
    requires Reaches(max, n, m, false, INIT, s)
    ensures |Live(s.sessions)| <= max + n - 1
  {
    var acts :| IsRun(max, n, m, false, INIT, acts) && Exec(max, INIT, acts) == s;
    if max == 0 {
      ZeroQuota(n, m, false, acts);
      assert Live(s.sessions) == {};
    } else {
      assert Exposed(INIT) == {} && Admitted(INIT.inFlight) == {};
      ExposureRun(max, n, m, false, INIT, acts);
      SubsetCardinality(Live(s.sessions), Exposed(s));
    }
  }

  // ---------------------------------------------------------------------------
  // The bound is reached
  // ---------------------------------------------------------------------------

  /** Ids told apart by their length. */
  function Name(k: nat): (id: SessionId)
    ensures |id| == k
  {
    seq(k, _ => 'a')
  }

  function Names(k: nat): set<SessionId> {
    set i | 0 <= i < k :: Name(i)
  }

  lemma {:induction false} NamesCount(k: nat)
    ensures |Names(k)| == k
  {
    if k > 0 {
      NamesCount(k - 1);
      assert Names(k) == Names(k - 1) + {Name(k - 1)};
      assert Name(k - 1) !in Names(k - 1);
    } else {
      assert Names(0) == {};
    }
  }

  /** Exactly the first `k` names are in the table, all live. */
  ghost predicate Holds(s: State, k: nat) {
    s.sessions.Keys == Names(k) && forall id :: id in s.sessions ==> !s.sessions[id].state.Reclaimed?
  }

  lemma HoldsCount(s: State, k: nat)
    requires Holds(s, k)
    ensures |Live(s.sessions)| == k
  {
    NamesCount(k);
    assert Live(s.sessions) == Names(k);
  }

  /** The next name joins the table. */
  lemma HoldsNext(s: State, s': State, k: nat, h: Handle)
    requires Holds(s, k) && !h.state.Reclaimed?
    requires s'.sessions == s.sessions[Name(k) := h]
    ensures Name(k) !in s.sessions && Holds(s', k + 1)
  {
    assert Names(k + 1) == Names(k) + {Name(k)};
    assert Name(k) !in Names(k);
  }

  const ANY_REQUEST := Request("", "", 0)

  /** An open passes the check when the 32-bit count is below the quota. */
  lemma AdmitOne(max: nat, n: nat, m: nat, s: State, op: OpId, k: nat) returns (s': State)
    requires k % U32_RANGE < max
    requires Reaches(max, n, m, true, INIT, s) && |s.inFlight| < n && Holds(s, k)
    requires op !in s.inFlight
    ensures Reaches(max, n, m, true, INIT, s') && s' == s.(inFlight := s.inFlight[op := OpenChecked])
  {
    HoldsCount(s, k);
    s' := Next(max, s, OpenCheck(op));
    ReachStep(max, n, m, true, INIT, s, OpenCheck(op));
  }

  /** An open past the check inserts the next name. */
  lemma InsertOne(max: nat, n: nat, m: nat, s: State, op: OpId, k: nat) returns (s': State)
    requires Reaches(max, n, m, true, INIT, s) && |s.inFlight| <= n && Holds(s, k)
    requires op in s.inFlight && s.inFlight[op] == OpenChecked
    ensures Reaches(max, n, m, true, INIT, s') && Holds(s', k + 1)
    ensures s'.inFlight == s.inFlight[op := OpenInserted(Name(k))]
    ensures s'.receipts == s.receipts && s'.late == s.late
  {
    var a := OpenInsert(op, Name(k), ANY_REQUEST, 0);
    s' := Next(max, s, a);
    HoldsNext(s, s', k, FreshHandle(ANY_REQUEST, 0));
    ReachStep(max, n, m, true, INIT, s, a);
  }

  /** An open that inserted its session launches the container and ends. */
  lemma LaunchOne(max: nat, n: nat, m: nat, s: State, op: OpId, id: SessionId) returns (s': State)
    requires Reaches(max, n, m, true, INIT, s) && |s.inFlight| <= n
    requires op in s.inFlight && s.inFlight[op] == OpenInserted(id) && IsLive(s.sessions, id)
    ensures Reaches(max, n, m, true, INIT, s') && s'.inFlight == s.inFlight - {op}
    ensures s'.sessions == s.sessions[id := s.sessions[id].(state := Active, containerId := Some(""))]
    ensures s'.receipts == s.receipts && s'.late == s.late
  {
    var s1 := Next(max, s, OpenStart(op));
    ReachStep(max, n, m, true, INIT, s, OpenStart(op));
    assert s1.inFlight.Keys == s.inFlight.Keys;
    assert |s1.inFlight| == |s1.inFlight.Keys| == |s.inFlight.Keys| == |s.inFlight|;
    s' := Next(max, s1, OpenLaunch(op, Some("")));
    ReachStep(max, n, m, true, INIT, s1, OpenLaunch(op, Some("")));
    assert s'.inFlight == s.inFlight - {op};
  }

  /** Operations `0` to `n` are opens past the check, of which the first `j` have inserted
      their session. */
  ghost predicate IsCrowd(m: map<OpId, Stage>, base: nat, n: nat, j: nat) {
    && |m| == n
    && (forall op: OpId :: op in m <==> op < n)
    && forall op: OpId :: op in m ==> m[op] == if op < j then OpenInserted(Name(base + op)) else OpenChecked
  }

  lemma CrowdAdmits(m: map<OpId, Stage>, base: nat, j: nat)
    requires IsCrowd(m, base, j, 0)
    ensures j !in m && IsCrowd(m[j := OpenChecked], base, j + 1, 0)
  {
    var m' := m[j := OpenChecked];
    assert j !in m;
    OneMore(m, j, OpenChecked);
    forall op: OpId
      ensures op in m' <==> op < j + 1
      ensures op in m' ==> m'[op] == OpenChecked
    {
      assert op in m <==> op < j;
    }
  }

  lemma CrowdInserts(m: map<OpId, Stage>, base: nat, n: nat, j: nat)
    requires j < n && IsCrowd(m, base, n, j)
    ensures j in m && m[j] == OpenChecked && IsCrowd(m[j := OpenInserted(Name(base + j))], base, n, j + 1)
  {
    var m' := m[j := OpenInserted(Name(base + j))];
    assert m'.Keys == m.Keys;
    assert |m'| == |m'.Keys| == |m.Keys| == |m|;
  }

  lemma CrowdLeaves(m: map<OpId, Stage>, base: nat, j: nat)
    requires IsCrowd(m, base, j + 1, j + 1)
    ensures j in m && m[j] == OpenInserted(Name(base + j)) && IsCrowd(m - {j}, base, j, j)
  {
    var m' := m - {j};
    assert j in m;
    assert m'.Keys == m.Keys - {j};
    assert |m'| == |m'.Keys| == |m.Keys| - 1;
  }

  /** The table holds `k` sessions, all live, and nothing is in flight. */
  ghost predicate AtRestWith(max: nat, n: nat, m: nat, s: State, k: nat) {
    Reaches(max, n, m, true, INIT, s) && s.inFlight == map[] && Holds(s, k)
  }

  /** A crowd of `j` opens passes the check before any of them inserts. */
  lemma {:induction false} AdmitCrowd(max: nat, n: nat, m: nat, s: State, base: nat, j: nat) returns (s': State)
    requires j <= n && base % U32_RANGE < max && AtRestWith(max, n, m, s, base)
    ensures Reaches(max, n, m, true, INIT, s') && IsCrowd(s'.inFlight, base, j, 0) && Holds(s', base)
  {
    if j == 0 {
      s' := s;
    } else {
      s' := AdmitCrowd(max, n, m, s, base, j - 1);
      CrowdAdmits(s'.inFlight, base, j - 1);
      s' := AdmitOne(max, n, m, s', j - 1, base);
    }
  }

  /** The next of them inserts. */
  lemma InsertNext(max: nat, n: nat, m: nat, s: State, base: nat, j: nat, i: nat) returns (s': State)
    requires i < j <= n
    requires Reaches(max, n, m, true, INIT, s) && IsCrowd(s.inFlight, base, j, i) && Holds(s, base + i)
    ensures Reaches(max, n, m, true, INIT, s') && IsCrowd(s'.inFlight, base, j, i + 1) && Holds(s', base + i + 1)
  {
    CrowdInserts(s.inFlight, base, j, i);
    s' := InsertOne(max, n, m, s, i, base + i);
  }

  /** Then `i` of them insert. */
  lemma {:induction false} InsertCrowd(max: nat, n: nat, m: nat, s: State, base: nat, j: nat, i: nat)
    returns (s': State)
    requires i <= j <= n && base % U32_RANGE < max && AtRestWith(max, n, m, s, base)
    ensures Reaches(max, n, m, true, INIT, s') && IsCrowd(s'.inFlight, base, j, i) && Holds(s', base + i)
  {
    if i == 0 {
      s' := AdmitCrowd(max, n, m, s, base, j);
    } else {
      s' := InsertCrowd(max, n, m, s, base, j, i - 1);
      s' := InsertNext(max, n, m, s', base, j, i - 1);
    }
  }

  /** The last of a crowd launches and leaves. */
  lemma DrainOne(max: nat, n: nat, m: nat, s: State, base: nat, j: nat, k: nat) returns (s': State)
    requires j < n && base + j < k
    requires Reaches(max, n, m, true, INIT, s) && IsCrowd(s.inFlight, base, j + 1, j + 1) && Holds(s, k)
    ensures Reaches(max, n, m, true, INIT, s') && IsCrowd(s'.inFlight, base, j, j) && Holds(s', k)
  {
    CrowdLeaves(s.inFlight, base, j);
    assert Name(base + j) in Names(k);
    s' := LaunchOne(max, n, m, s, j, Name(base + j));
    assert s'.sessions.Keys == s.sessions.Keys;
  }

  /** Then they launch, the last one first. */
  lemma {:induction false} DrainCrowd(max: nat, n: nat, m: nat, s: State, base: nat, j: nat, k: nat) returns (s': State)
    requires j <= n && base + j <= k
    requires Reaches(max, n, m, true, INIT, s) && IsCrowd(s.inFlight, base, j, j) && Holds(s, k)
    ensures AtRestWith(max, n, m, s', k)
    decreases j
  {
    if j == 0 {
      s' := s;
      assert s'.inFlight == map[];
    } else {
      s' := DrainOne(max, n, m, s, base, j - 1, k);
      s' := DrainCrowd(max, n, m, s', base, j - 1, k);
    }
  }

  /** A crowd of `j` opens finds the count below the quota and adds `j` sessions. */
  lemma OpenCrowd(max: nat, n: nat, m: nat, s: State, base: nat, j: nat) returns (s': State)
    requires j <= n && base % U32_RANGE < max && AtRestWith(max, n, m, s, base)
    ensures AtRestWith(max, n, m, s', base + j)
  {
    s' := InsertCrowd(max, n, m, s, base, j, j);
    s' := DrainCrowd(max, n, m, s', base, j, base + j);
  }

  /** The largest number up to `k - 1` that the 32-bit count shows as `max - 1`. */
  lemma LastGap(max: nat, k: nat) returns (base: nat)
    requires 1 <= max <= (k - 1) % U32_RANGE && k >= 1
    ensures base < k && base % U32_RANGE == max - 1 && k - base == (k - 1) % U32_RANGE - max + 2
  {
    var q := (k - 1) / U32_RANGE;
    base := q * U32_RANGE + (max - 1);
    assert k - 1 == q * U32_RANGE + (k - 1) % U32_RANGE;
    assert base % U32_RANGE == max - 1 by {
      assert base / U32_RANGE == q;
    }
  }

  /** Fill the table to `k` sessions: one open at a time while the count is below the quota, and a
      crowd from the last place where it is. Once a crowd carries the count past 2^32 the check
      starts again from zero, and there is no end to it. */
  lemma {:induction false} FillTo(max: nat, n: nat, m: nat, k: nat) returns (s: State)
    requires n >= 1 && 1 <= max < U32_RANGE
    requires k <= max + n - 1 || max + n > U32_RANGE
    ensures AtRestWith(max, n, m, s, k)
    decreases k
  {
    if k == 0 {
      s := INIT;
      ReachHere(max, n, m, true, INIT);
      assert Names(0) == {};
    } else if (k - 1) % U32_RANGE < max {
      s := FillTo(max, n, m, k - 1);
      s := OpenCrowd(max, n, m, s, k - 1, 1);
    } else {
      var base := LastGap(max, k);
      s := FillTo(max, n, m, base);
      s := OpenCrowd(max, n, m, s, base, k - base);
    }
  }

  /** For every quota but zero and every number of operations in flight some run, with fresh ids,
      makes `max + n - 1` sessions live. */
  lemma LiveBoundIsReached(max: nat, n: nat, m: nat)
    requires n >= 1 && 1 <= max < U32_RANGE
    ensures exists s :: Reaches(max, n, m, true, INIT, s) && |Live(s.sessions)| == max + n - 1
  {
    var s := FillTo(max, n, m, max + n - 1);
    HoldsCount(s, max + n - 1);
  }

  /** When a crowd can carry the live count past 2^32, the cast count wraps around and no number
      of live sessions is out of reach. */
  lemma WrapAroundBreaksBound(max: nat, n: nat, m: nat, k: nat)
    requires 1 <= max < U32_RANGE && max + n > U32_RANGE
    ensures exists s :: Reaches(max, n, m, true, INIT, s) && |Live(s.sessions)| == k
  {
    var s := FillTo(max, n, m, k);
    HoldsCount(s, k);
  }

  /** A run with fresh ids is a run, and so is one with fewer operations in flight. */
  lemma {:induction false} RunWeaken(max: nat, n: nat, n': nat, m: nat, unique: bool, s: State, acts: seq<Action>)
    requires n <= n' && IsRun(max, n, m, unique, s, acts)
    ensures IsRun(max, n', m, unique, s, acts) && IsRun(max, n', m, false, s, acts)
    decreases |acts|
  {
    if acts != [] {
      RunWeaken(max, n, n', m, unique, Next(max, s, acts[0]), acts[1..]);
    }
  }

  lemma ReachWeaken(max: nat, n: nat, n': nat, m: nat, unique: bool, s: State, s': State)
    requires n <= n' && Reaches(max, n, m, unique, s, s')
    ensures Reaches(max, n', m, unique, s, s') && Reaches(max, n', m, false, s, s')
  {
    var acts :| IsRun(max, n, m, unique, s, acts) && Exec(max, s, acts) == s';
    RunWeaken(max, n, n', m, unique, s, acts);
  }

  /** The live counts that runs with `n` in flight can lead to: all of them up to `max + n - 1`, or
      all numbers when the cast count can wrap around; none but zero when the quota is zero. A limit
      on the operations per session makes no difference. */
  lemma LiveCountsExactly(max: nat, n: nat, m: nat, k: nat)
    requires n >= 1 && max < U32_RANGE
    ensures (exists s :: Reaches(max, n, m, true, INIT, s) && |Live(s.sessions)| == k) <==>
            k == 0 || (max >= 1 && (k <= max + n - 1 || max + n > U32_RANGE))
  {
    if max >= 1 && (k <= max + n - 1 || max + n > U32_RANGE) {
      var s := FillTo(max, n, m, k);
      HoldsCount(s, k);
    }
    if k == 0 {
      ReachHere(max, n, m, true, INIT);
      assert Live(INIT.sessions) == {};
    }
    if s :| Reaches(max, n, m, true, INIT, s) && |Live(s.sessions)| == k {
      if max == 0 {
        var acts :| IsRun(max, n, m, true, INIT, acts) && Exec(max, INIT, acts) == s;
        ZeroQuota(n, m, true, acts);
      } else if max + n <= U32_RANGE {
        ReachWeaken(max, n, n, m, true, INIT, s);
        LiveBound(max, n, m, s);
      }
    }
  }

  /** The bound holds in every run exactly when the 32-bit count cannot wrap around, or nothing can
      be opened at all. */
  lemma LiveBoundExactly(max: nat, n: nat, m: nat)
    requires n >= 1 && max < U32_RANGE
    ensures (forall s :: Reaches(max, n, m, true, INIT, s) ==> |Live(s.sessions)| <= max + n - 1) <==>
            max == 0 || max + n <= U32_RANGE
  {
    if max == 0 || max + n <= U32_RANGE {
      forall s | Reaches(max, n, m, true, INIT, s)
        ensures |Live(s.sessions)| <= max + n - 1
      {
        ReachWeaken(max, n, n, m, true, INIT, s);
        LiveBound(max, n, m, s);
      }
    } else {
      WrapAroundBreaksBound(max, n, m, max + n);
    }
  }

  /** The quota is kept in every run exactly when no operations overlap at all, or nothing can be
      opened; it does not help to keep operations on one session apart. */
  lemma QuotaExactlyWithoutOverlap(max: nat, n: nat, m: nat)
    requires max < U32_RANGE
    ensures (forall s :: Reaches(max, n, m, true, INIT, s) ==> |Live(s.sessions)| <= max) <==> n <= 1 || max == 0
  {
    if n <= 1 || max == 0 {
      forall s | Reaches(max, n, m, true, INIT, s)
        ensures |Live(s.sessions)| <= max
      {
        if n <= 1 {
          ReachWeaken(max, n, 1, m, true, INIT, s);
          LiveBound(max, 1, m, s);
        } else {
          LiveCountsExactly(max, n, m, |Live(s.sessions)|);
        }
      }
    } else {
      LiveBoundIsReached(max, n, m);
    }
  }

  // ---------------------------------------------------------------------------
  // Receipts and reclaimed sessions
  // ---------------------------------------------------------------------------

  /** A session got at most one receipt for each time it went from live to reclaimed, and it
      comes back to life only through a late write. */
  ghost predicate ReceiptsPaidFor(s: State, id: SessionId) {
    && (id !in s.sessions ==> s.receipts[id] == 0)
    && s.receipts[id] + (if IsLive(s.sessions, id) then 1 else 0) <= 1 + s.late[id]
  }

  lemma ReceiptsAtOnce(max: nat, s: State, a: Action, id: SessionId)
    requires ReceiptsPaidFor(s, id) && (a.Close? || a.Get? || a.Beat?)
    ensures ReceiptsPaidFor(Next(max, s, a), id)
  {
    if !a.Close? {
      assert IsLive(Next(max, s, a).sessions, id) ==> IsLive(s.sessions, id);
    }
  }

  /** A write brings a session to life at the price of being late, unless it is new. */
  lemma ReceiptsInFlight(max: nat, s: State, a: Action, id: SessionId)
    requires ReceiptsPaidFor(s, id) && !a.Close? && !a.Get? && !a.Beat?
    ensures ReceiptsPaidFor(Next(max, s, a), id)
  {
  }

  lemma ReceiptsStep(max: nat, s: State, a: Action, id: SessionId)
    requires ReceiptsPaidFor(s, id)
    ensures ReceiptsPaidFor(Next(max, s, a), id)
  {
    if a.Close? || a.Get? || a.Beat? {
      ReceiptsAtOnce(max, s, a, id);
    } else {
      ReceiptsInFlight(max, s, a, id);
    }
  }

  lemma {:induction false} ReceiptsRun(max: nat, n: nat, m: nat, unique: bool, s: State, acts: seq<Action>,
                                       id: SessionId)
    requires IsRun(max, n, m, unique, s, acts) && ReceiptsPaidFor(s, id)
    ensures ReceiptsPaidFor(Exec(max, s, acts), id)
    decreases |acts|
  {
    if acts != [] {
      ReceiptsStep(max, s, acts[0], id);
      ReceiptsRun(max, n, m, unique, Next(max, s, acts[0]), acts[1..], id);
    }
  }

  /** In every interleaving, even with colliding ids, receipts for a session number at most one
      plus the writes that landed on it after a reclaim. */
  lemma ReceiptBound(max: nat, n: nat, m: nat, s: State, id: SessionId)
    requires Reaches(max, n, m, false, INIT, s)
    ensures s.receipts[id] <= 1 + s.late[id]
  {
    var acts :| IsRun(max, n, m, false, INIT, acts) && Exec(max, INIT, acts) == s;
    ReceiptsRun(max, n, m, false, INIT, acts, id);
  }

  predicate SameTarget(a: Stage, b: Stage) {
    !a.OpenChecked? && !b.OpenChecked? && a.id == b.id
  }

  /** Every write in flight will find its session live, no two go to one session, and none was
      late. */
  ghost predicate Apart(s: State) {
    && (forall op :: op in s.inFlight && !s.inFlight[op].OpenChecked? ==> IsLive(s.sessions, s.inFlight[op].id))
    && (forall op, o :: op in s.inFlight && o in s.inFlight && SameTarget(s.inFlight[op], s.inFlight[o]) ==> op == o)
    && s.late == multiset{}
  }

  /** No write to the session is in flight. */
  ghost predicate Free(s: State, id: SessionId) {
    forall op :: op in s.inFlight && !s.inFlight[op].OpenChecked? ==> s.inFlight[op].id != id
  }

  /** Within the limits an operation begins on a session that no write in flight goes to. */
  lemma BeginsFree(n: nat, m: nat, s: State, a: Action)
    requires (n <= 1 || m <= 1) && Within(n, m, s, a) && Begins(a) && !a.OpenCheck?
    ensures Free(s, a.id)
  {
    assert On(s.inFlight, a.id) == {} || s.inFlight == map[];
    forall op | op in s.inFlight && !s.inFlight[op].OpenChecked?
      ensures s.inFlight[op].id != a.id
    {
      assert op !in On(s.inFlight, a.id);
    }
  }

  /** What is reclaimed stays so in the step. */
  ghost predicate KeepsReclaimed(s: State, s': State) {
    forall id :: IsReclaimed(s.sessions, id) ==> IsReclaimed(s'.sessions, id)
  }

  /** Closing, looking up and beating touch a session that no write in flight goes to. */
  lemma ApartAtOnce(max: nat, s: State, a: Action)
    requires Apart(s) && (a.Close? || a.Get? || a.Beat?) && Free(s, a.id)
    ensures Apart(Next(max, s, a)) && KeepsReclaimed(s, Next(max, s, a))
  {
  }

  lemma ApartBegins(max: nat, s: State, a: Action)
    requires Apart(s) && (a.OpenCheck? || a.PauseCheck? || a.ResumeCheck?) && (!a.OpenCheck? ==> Free(s, a.id))
    ensures Apart(Next(max, s, a)) && KeepsReclaimed(s, Next(max, s, a))
  {
  }

  lemma ApartOpens(max: nat, s: State, a: Action)
    requires Apart(s) && (a.OpenInsert? || a.OpenStart?) && MintsFresh(s, a)
    ensures Apart(Next(max, s, a)) && KeepsReclaimed(s, Next(max, s, a))
  {
  }

  lemma ApartEnds(max: nat, s: State, a: Action)
    requires Apart(s) && (a.OpenLaunch? || a.PauseFinish? || a.ResumeFinish?)
    ensures Apart(Next(max, s, a)) && KeepsReclaimed(s, Next(max, s, a))
  {
  }

  lemma ApartStep(max: nat, n: nat, m: nat, s: State, a: Action)
    requires (n <= 1 || m <= 1) && Apart(s) && Within(n, m, s, a) && MintsFresh(s, a)
    ensures Apart(Next(max, s, a)) && KeepsReclaimed(s, Next(max, s, a))
  {
    if Begins(a) && !a.OpenCheck? {
      BeginsFree(n, m, s, a);
    }
    if a.Close? || a.Get? || a.Beat? {
      ApartAtOnce(max, s, a);
    } else if a.OpenCheck? || a.PauseCheck? || a.ResumeCheck? {
      ApartBegins(max, s, a);
    } else if a.OpenInsert? || a.OpenStart? {
      ApartOpens(max, s, a);
    } else {
      ApartEnds(max, s, a);
    }
  }

  lemma {:induction false} ApartRun(max: nat, n: nat, m: nat, s: State, acts: seq<Action>, id: SessionId)
    requires (n <= 1 || m <= 1) && IsRun(max, n, m, true, s, acts) && Apart(s)
    ensures Apart(Exec(max, s, acts))
    ensures IsReclaimed(s.sessions, id) ==> IsReclaimed(Exec(max, s, acts).sessions, id)
    decreases |acts|
  {
    if acts != [] {
      ApartStep(max, n, m, s, acts[0]);
      ApartRun(max, n, m, Next(max, s, acts[0]), acts[1..], id);
    }
  }

  /** When operations on one session do not overlap, and with fresh ids, a session gets at most one
      receipt, and no write is ever late. */
  lemma OneReceiptWithoutOverlap(max: nat, n: nat, m: nat, s: State, id: SessionId)
    requires (n <= 1 || m <= 1) && Reaches(max, n, m, true, INIT, s)
    ensures s.receipts[id] <= 1 && s.late == multiset{}
  {
    var acts :| IsRun(max, n, m, true, INIT, acts) && Exec(max, INIT, acts) == s;
    ApartRun(max, n, m, INIT, acts, id);
    ReachWeaken(max, n, n, m, true, INIT, s);
    ReceiptBound(max, n, m, s, id);
  }

  /** A reclaimed session is found reclaimed ever after, in all runs within the limits. */
  ghost predicate ReclaimedIsTerminal(max: nat, n: nat, m: nat) {
    forall s, s', id :: Reaches(max, n, m, true, INIT, s) && Reaches(max, n, m, true, s, s') ==>
      IsReclaimed(s.sessions, id) ==> IsReclaimed(s'.sessions, id)
  }

  lemma OpenFirst(max: nat, n: nat, m: nat) returns (s: State)
    requires n >= 1 && 1 <= max < U32_RANGE
    ensures Reaches(max, n, m, true, INIT, s) && s.inFlight == map[]
    ensures Name(0) in s.sessions && s.sessions[Name(0)].state == Active
    ensures s.receipts == multiset{} && s.late == multiset{}
  {
    ReachHere(max, n, m, true, INIT);
    assert Names(0) == {};
    s := AdmitOne(max, n, m, INIT, 0, 0);
    assert s.inFlight == map[0 := OpenChecked] && |s.inFlight| == 1;
    s := InsertOne(max, n, m, s, 0, 0);
    assert s.inFlight == map[0 := OpenInserted(Name(0))] && |s.inFlight| == 1;
    assert Name(0) in Names(1);
    s := LaunchOne(max, n, m, s, 0, Name(0));
    assert s.inFlight == map[];
  }

  lemma CloseDuringPause(max: nat, n: nat, m: nat, s: State, id: SessionId) returns (closed: State)
    requires n >= 2 && m >= 2 && Reaches(max, n, m, true, INIT, s) && s.inFlight == map[]
    requires id in s.sessions && s.sessions[id].state == Active
    ensures Reaches(max, n, m, true, INIT, closed) && IsReclaimed(closed.sessions, id)
    ensures closed.inFlight == map[0 := PauseChecked(id)]
    ensures closed.receipts == s.receipts + multiset{id} && closed.late == s.late
  {
    var s1 := Next(max, s, PauseCheck(0, id));
    ReachStep(max, n, m, true, INIT, s, PauseCheck(0, id));
    assert s1 == s.(inFlight := map[0 := PauseChecked(id)]) && |s1.inFlight| == 1;
    assert On(s1.inFlight, id) == {0};
    closed := Next(max, s1, Close(id));
    ReachStep(max, n, m, true, INIT, s1, Close(id));
  }

  lemma PauseReclaimed(max: nat, n: nat, m: nat, closed: State, id: SessionId) returns (revived: State)
    requires n >= 1 && Reaches(max, n, m, true, INIT, closed) && IsReclaimed(closed.sessions, id)
    requires closed.inFlight == map[0 := PauseChecked(id)]
    ensures Reaches(max, n, m, true, closed, revived) && Reaches(max, n, m, true, INIT, revived)
    ensures revived.inFlight == map[] && id in revived.sessions && revived.sessions[id].state == Paused
    ensures revived.receipts == closed.receipts && revived.late == closed.late + multiset{id}
  {
    assert |closed.inFlight| == 1;
    revived := Next(max, closed, PauseFinish(0, true));
    ReachStep(max, n, m, true, INIT, closed, PauseFinish(0, true));
    ReachHere(max, n, m, true, closed);
    ReachStep(max, n, m, true, closed, closed, PauseFinish(0, true));
    assert revived.inFlight == map[];
  }

  /** Pause checked, session closed with a receipt, pause written: the session is paused. */
  lemma LatePause(max: nat, n: nat, m: nat, s: State, id: SessionId) returns (closed: State, revived: State)
    requires n >= 2 && m >= 2 && Reaches(max, n, m, true, INIT, s) && s.inFlight == map[]
    requires id in s.sessions && s.sessions[id].state == Active
    ensures Reaches(max, n, m, true, INIT, closed) && IsReclaimed(closed.sessions, id)
    ensures Reaches(max, n, m, true, closed, revived) && Reaches(max, n, m, true, INIT, revived)
    ensures revived.inFlight == map[] && id in revived.sessions && revived.sessions[id].state == Paused
    ensures revived.receipts == s.receipts + multiset{id} && revived.late == s.late + multiset{id}
  {
    closed := CloseDuringPause(max, n, m, s, id);
    revived := PauseReclaimed(max, n, m, closed, id);
  }

  /** Two operations are enough: a pause that checked before a close writes after it. */
  lemma ReviveOne(max: nat, n: nat, m: nat)
    requires n >= 2 && m >= 2 && 1 <= max < U32_RANGE
    ensures !ReclaimedIsTerminal(max, n, m)
  {
    var s0 := OpenFirst(max, n, m);
    var closed, revived := LatePause(max, n, m, s0, Name(0));
    assert IsReclaimed(closed.sessions, Name(0)) && !IsReclaimed(revived.sessions, Name(0));
  }

  /** The lifecycle's terminal state is terminal exactly when operations on one session do not
      overlap, or nothing can be opened at all. */
  lemma ReclaimedExactlyTerminalWithoutOverlap(max: nat, n: nat, m: nat)
    requires max < U32_RANGE
    ensures ReclaimedIsTerminal(max, n, m) <==> n <= 1 || m <= 1 || max == 0
  {
    if n <= 1 || m <= 1 || max == 0 {
      forall s, s', id | Reaches(max, n, m, true, INIT, s) && Reaches(max, n, m, true, s, s') &&
                         IsReclaimed(s.sessions, id)
        ensures IsReclaimed(s'.sessions, id)
      {
        var acts :| IsRun(max, n, m, true, INIT, acts) && Exec(max, INIT, acts) == s;
        var acts' :| IsRun(max, n, m, true, s, acts') && Exec(max, s, acts') == s';
        if n <= 1 || m <= 1 {
          ApartRun(max, n, m, INIT, acts, id);
          ApartRun(max, n, m, s, acts', id);
        } else {
          ZeroQuota(n, m, true, acts);
        }
      }
    } else {
      ReviveOne(max, n, m);
    }
  }

  lemma ResumeTakesEffect(max: nat, n: nat, m: nat, s: State, id: SessionId) returns (s': State)
    requires n >= 1 && Reaches(max, n, m, true, INIT, s) && s.inFlight == map[0 := ResumeChecked(id)]
    requires id in s.sessions && s.sessions[id].state == Paused
    ensures Reaches(max, n, m, true, INIT, s') && s'.inFlight == map[]
    ensures id in s'.sessions && s'.sessions[id].state == Active
    ensures s'.receipts == s.receipts && s'.late == s.late
  {
    assert |s.inFlight| == 1;
    ReachStep(max, n, m, true, INIT, s, ResumeFinish(0, true));
    s' := Next(max, s, ResumeFinish(0, true));
    assert s'.inFlight == map[];
  }

  lemma ResumeIt(max: nat, n: nat, m: nat, s: State, id: SessionId) returns (s': State)
    requires n >= 1 && m >= 1 && Reaches(max, n, m, true, INIT, s) && s.inFlight == map[]
    requires id in s.sessions && s.sessions[id].state == Paused
    ensures Reaches(max, n, m, true, INIT, s') && s'.inFlight == map[]
    ensures id in s'.sessions && s'.sessions[id].state == Active
    ensures s'.receipts == s.receipts && s'.late == s.late
  {
    assert On(s.inFlight, id) == {};
    ReachStep(max, n, m, true, INIT, s, ResumeCheck(0, id));
    var s1 := s.(inFlight := map[0 := ResumeChecked(id)]);
    assert Next(max, s, ResumeCheck(0, id)) == s1;
    s' := ResumeTakesEffect(max, n, m, s1, id);
  }

  /** A session closed and revived `k` times. */
  lemma {:induction false} Churn(max: nat, k: nat) returns (s: State)
    requires 1 <= max < U32_RANGE
    ensures Reaches(max, 2, 2, true, INIT, s) && s.inFlight == map[]
    ensures Name(0) in s.sessions && s.sessions[Name(0)].state == Active
    ensures s.receipts[Name(0)] == s.late[Name(0)] == k
  {
    if k == 0 {
      s := OpenFirst(max, 2, 2);
    } else {
      var s0 := Churn(max, k - 1);
      var closed, revived := LatePause(max, 2, 2, s0, Name(0));
      s := ResumeIt(max, 2, 2, revived, Name(0));
    }
  }

  /** Two operations in flight are enough for any number of receipts for one session, and the
      receipt bound is met with equality. */
  lemma ReceiptBoundIsReached(max: nat, k: nat)
    requires 1 <= max < U32_RANGE
    ensures exists s, id :: Reaches(max, 2, 2, true, INIT, s) && s.late[id] == k && s.receipts[id] == k + 1
  {
    var s := Churn(max, k);
    ReachStep(max, 2, 2, true, INIT, s, Close(Name(0)));
    var s' := Next(max, s, Close(Name(0)));
    assert s'.late[Name(0)] == k && s'.receipts[Name(0)] == k + 1;
  }

  // ---------------------------------------------------------------------------
  // Heartbeats
  // ---------------------------------------------------------------------------

  /** What happened to a session: what it was inserted with last and when, and the stamps of the
      heartbeats accepted since. */
  datatype Life = Life(req: Request, insertedAt: int, beats: seq<int>)

  /** Is the reading within the timeout of a session that was last heard of at `heard`? A timeout
      below one second is over at once. */
  predicate InWindow(heard: int, timeout: nat, now: int) {
    var seconds := timeout / 1_000_000_000;
    if seconds == 0 then now <= heard - 1_000_000_000 else now < heard + seconds * 1_000_000_000
  }

  /** When the session was last heard of: its last accepted heartbeat, or its insertion. */
  function HeardAt(life: Life): int {
    if life.beats == [] then life.insertedAt else life.beats[|life.beats| - 1]
  }

  /** What the action adds: an admitted open inserts the session, and a heartbeat of a live session is
      accepted within the timeout of the last time the session was heard of. */
  function Lived(s: State, life: Option<Life>, a: Action, id: SessionId): Option<Life> {
    if a.OpenInsert? && a.id == id && a.op in s.inFlight && s.inFlight[a.op].OpenChecked? then
      Some(Life(a.req, a.now, []))
    else if a.Beat? && a.id == id && IsLive(s.sessions, id) && life.Some? &&
            InWindow(HeardAt(life.value), life.value.req.timeout, a.checkedAt) then
      Some(life.value.(beats := life.value.beats + [a.stampedAt]))
    else life
  }

  function LifeAfter(max: nat, s: State, life: Option<Life>, acts: seq<Action>, id: SessionId): Option<Life>
    decreases |acts|
  {
    if acts == [] then life else LifeAfter(max, Next(max, s, acts[0]), Lived(s, life, acts[0], id), acts[1..], id)
  }

  /** The handle of a session tells its life. */
  ghost predicate Tells(sessions: Sessions, life: Option<Life>, id: SessionId) {
    && (id in sessions <==> life.Some?)
    && (id in sessions ==>
          && sessions[id].request == life.value.req
          && sessions[id].createdAt == life.value.insertedAt
          && sessions[id].heartbeatCount == |life.value.beats|
          && sessions[id].lastHeartbeat == HeardAt(life.value))
  }

  lemma TellsAtOnce(max: nat, s: State, life: Option<Life>, a: Action, id: SessionId)
    requires Tells(s.sessions, life, id) && (a.Close? || a.Get? || a.Beat?)
    ensures Tells(Next(max, s, a).sessions, Lived(s, life, a, id), id)
  {
    if a.Beat? && id in s.sessions {
      TimedOutWindow(s.sessions[id].lastHeartbeat, s.sessions[id].request.timeout, a.checkedAt);
    }
  }

  lemma TellsOpening(max: nat, s: State, life: Option<Life>, a: Action, id: SessionId)
    requires Tells(s.sessions, life, id) && (a.OpenCheck? || a.OpenInsert? || a.OpenStart? || a.OpenLaunch?)
    ensures Tells(Next(max, s, a).sessions, Lived(s, life, a, id), id)
  {
  }

  lemma TellsSwitching(max: nat, s: State, life: Option<Life>, a: Action, id: SessionId)
    requires Tells(s.sessions, life, id) && (a.PauseCheck? || a.PauseFinish? || a.ResumeCheck? || a.ResumeFinish?)
    ensures Tells(Next(max, s, a).sessions, Lived(s, life, a, id), id)
  {
  }

  lemma {:induction false} TellsRun(max: nat, s: State, life: Option<Life>, acts: seq<Action>, id: SessionId)
    requires Tells(s.sessions, life, id)
    ensures Tells(Exec(max, s, acts).sessions, LifeAfter(max, s, life, acts, id), id)
    decreases |acts|
  {
    if acts != [] {
      var a := acts[0];
      if a.Close? || a.Get? || a.Beat? {
        TellsAtOnce(max, s, life, a, id);
      } else if a.OpenCheck? || a.OpenInsert? || a.OpenStart? || a.OpenLaunch? {
        TellsOpening(max, s, life, a, id);
      } else {
        TellsSwitching(max, s, life, a, id);
      }
      TellsRun(max, Next(max, s, a), Lived(s, life, a, id), acts[1..], id);
    }
  }

  /** In every interleaving a session's handle has the request and the time of its insertion, counts
      the heartbeats accepted since, and carries the stamp of the last one. */
  lemma HandleTellsLife(max: nat, acts: seq<Action>, id: SessionId)
    ensures var c, life := Exec(max, INIT, acts).sessions, LifeAfter(max, INIT, None, acts, id);
            && (id in c <==> life.Some?)
            && (id in c ==>
                  && c[id].request == life.value.req && c[id].createdAt == life.value.insertedAt
                  && c[id].heartbeatCount == |life.value.beats|
                  && c[id].lastHeartbeat == if life.value.beats == [] then life.value.insertedAt
                                            else life.value.beats[|life.value.beats| - 1])
  {
    TellsRun(max, INIT, None, acts, id);
  }

  /** In every interleaving: a heartbeat for a live session leaves it live exactly within the timeout of
      the last time it was heard of, and reclaims it otherwise. */
  lemma BeatDecides(max: nat, acts: seq<Action>, id: SessionId, checkedAt: int, stampedAt: int)
    requires IsLive(Exec(max, INIT, acts).sessions, id)
    ensures var s, life := Exec(max, INIT, acts), LifeAfter(max, INIT, None, acts, id);
            var c := Next(max, s, Beat(id, checkedAt, stampedAt)).sessions;
            && life.Some?
            && if InWindow(HeardAt(life.value), life.value.req.timeout, checkedAt)
               then c == s.sessions[id := s.sessions[id].(lastHeartbeat := stampedAt,
                                                          heartbeatCount := |life.value.beats| + 1)]
               else c == s.sessions[id := s.sessions[id].(state := Reclaimed)]
  {
    var s := Exec(max, INIT, acts);
    TellsRun(max, INIT, None, acts, id);
    TimedOutWindow(s.sessions[id].lastHeartbeat, s.sessions[id].request.timeout, checkedAt);
  }

  /** In every interleaving: looking up a live session within the timeout of the last time it was heard
      of leaves it live, unless it is active or paused and its container cannot be inspected or is in
      another state than running, paused, created or initializing; outside it reclaims it. */
  lemma GetDecides(max: nat, acts: seq<Action>, id: SessionId, now: int, probe: Probe)
    requires IsLive(Exec(max, INIT, acts).sessions, id)
    ensures var s, life := Exec(max, INIT, acts), LifeAfter(max, INIT, None, acts, id);
            && life.Some?
            && (IsLive(Next(max, s, Get(id, now, probe)).sessions, id) <==>
                && InWindow(HeardAt(life.value), life.value.req.timeout, now)
                && ((s.sessions[id].state.Active? || s.sessions[id].state.Paused?) ==>
                      probe.NoRuntime? ||
                      (probe.Observed? && probe.oci in {"running", "paused", "created", "initializing"})))
  {
    var s := Exec(max, INIT, acts);
    TellsRun(max, INIT, None, acts, id);
    TimedOutWindow(s.sessions[id].lastHeartbeat, s.sessions[id].request.timeout, now);
  }

  // ---------------------------------------------------------------------------
  // Operations done without interruption
  // ---------------------------------------------------------------------------

  /** Closing reclaims a session in any state but reclaimed, with one receipt, and does nothing else. */
  lemma CloseAlone(max: nat, s: State, id: SessionId)
    ensures Next(max, s, Close(id)) ==
            if id in s.sessions && s.sessions[id].state in {Idle, Starting, Active, Paused}
            then s.(sessions := s.sessions[id := s.sessions[id].(state := Reclaimed)],
                    receipts := s.receipts + multiset{id})
            else s
  {
  }

  lemma ExecTwo(max: nat, s: State, a: Action, b: Action)
    ensures Exec(max, s, [a, b]) == Next(max, Next(max, s, a), b)
  {
    assert [a, b][1..] == [b] && [b][1..] == [];
    assert Exec(max, Next(max, s, a), [b]) == Exec(max, Next(max, Next(max, s, a), b), []);
  }

  lemma ExecFour(max: nat, s: State, a: Action, b: Action, c: Action, d: Action)
    ensures Exec(max, s, [a, b, c, d]) == Next(max, Next(max, Next(max, Next(max, s, a), b), c), d)
  {
    var s2 := Next(max, Next(max, s, a), b);
    ExecTwo(max, s2, c, d);
    assert [a, b, c, d][1..] == [b, c, d] && [b, c, d][1..] == [c, d];
    assert Exec(max, Next(max, s, a), [b, c, d]) == Exec(max, s2, [c, d]);
  }

  lemma InsertAlone(max: nat, s: State, op: OpId, id: SessionId, req: Request, now: int)
    requires op !in s.inFlight && CountedLive(s.sessions) < max
    ensures var s' := Next(max, Next(max, s, OpenCheck(op)), OpenInsert(op, id, req, now));
            && s'.sessions == s.sessions[id := Handle(Idle, None, req, now, now, 0)]
            && s'.inFlight == s.inFlight[op := OpenInserted(id)]
  {
    assert s.inFlight[op := OpenChecked][op := OpenInserted(id)] == s.inFlight[op := OpenInserted(id)];
  }

  lemma FinishAlone(max: nat, s: State, others: map<OpId, Stage>, op: OpId, id: SessionId, launched: Option<string>)
    requires op !in others && s.inFlight == others[op := OpenInserted(id)] && id in s.sessions
    ensures var s' := Next(max, Next(max, s, OpenStart(op)), OpenLaunch(op, launched));
            && s'.inFlight == others
            && s'.sessions == s.sessions[id := s.sessions[id].(
                                state := if launched.Some? then Active else Starting,
                                containerId := if launched.Some? then launched else s.sessions[id].containerId)]
  {
    var s1 := Next(max, s, OpenStart(op));
    assert s1.inFlight == others[op := OpenStarting(id)];
    assert s1.sessions == s.sessions[id := s.sessions[id].(state := Starting)];
    assert others[op := OpenStarting(id)] - {op} == others;
  }

  /** The sections of an open, one after the other, do what the operation does as a whole. */
  lemma OpenAlone(max: nat, s: State, op: OpId, id: SessionId, req: Request, now: int, launched: Option<string>)
    requires op !in s.inFlight
    ensures var s' := Exec(max, s, [OpenCheck(op), OpenInsert(op, id, req, now),
                                    OpenStart(op), OpenLaunch(op, launched)]);
            && s'.inFlight == s.inFlight
            && s'.sessions == if CountedLive(s.sessions) >= max then s.sessions
                              else s.sessions[id := Handle(if launched.Some? then Active else Starting, launched,
                                                           req, now, now, 0)]
  {
    ExecFour(max, s, OpenCheck(op), OpenInsert(op, id, req, now), OpenStart(op), OpenLaunch(op, launched));
    if CountedLive(s.sessions) < max {
      InsertAlone(max, s, op, id, req, now);
      FinishAlone(max, Next(max, Next(max, s, OpenCheck(op)), OpenInsert(op, id, req, now)), s.inFlight, op, id,
                  launched);
    }
  }

  /** The two sections of pausing do what it does as a whole. */
  lemma PauseAlone(max: nat, s: State, op: OpId, id: SessionId, commandOk: bool)
    requires op !in s.inFlight
    ensures var s' := Exec(max, s, [PauseCheck(op, id), PauseFinish(op, commandOk)]);
            && s'.inFlight == s.inFlight
            && s'.sessions == if id in s.sessions && s.sessions[id].state == Active && commandOk
                              then s.sessions[id := s.sessions[id].(state := Paused)] else s.sessions
  {
    ExecTwo(max, s, PauseCheck(op, id), PauseFinish(op, commandOk));
    assert s.inFlight[op := PauseChecked(id)] - {op} == s.inFlight;
  }

  /** And so do those of resuming. */
  lemma ResumeAlone(max: nat, s: State, op: OpId, id: SessionId, commandOk: bool)
    requires op !in s.inFlight
    ensures var s' := Exec(max, s, [ResumeCheck(op, id), ResumeFinish(op, commandOk)]);
            && s'.inFlight == s.inFlight
            && s'.sessions == if id in s.sessions && s.sessions[id].state == Paused && commandOk
                              then s.sessions[id := s.sessions[id].(state := Active)] else s.sessions
  {
    ExecTwo(max, s, ResumeCheck(op, id), ResumeFinish(op, commandOk));
    assert s.inFlight[op := ResumeChecked(id)] - {op} == s.inFlight;
  }
}
