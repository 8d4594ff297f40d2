/** The in-memory session driver: opening, heartbeats with a lazy timeout, and closing. */
module SessionDriver {
  import opened Wrappers
  import opened Timing

  type SessionId = string

  datatype SessionState = Allocating | Active | Suspended | Terminating | Terminated

  datatype Request = Request(packageId: string, ecosystem: string, requester: string, timeout: nat)

  datatype Entry = Entry(
    request: Request,
    state: SessionState,
    createdAt: int,
    lastHeartbeat: int,
    heartbeatCount: nat)

  datatype Descriptor = Descriptor(
    id: SessionId, packageId: string, ecosystem: string, state: SessionState, requester: string,
    createdAt: int, lastHeartbeat: int, timeoutSeconds: nat)

  datatype Receipt = Receipt(id: SessionId, endedAt: int, uptimeSeconds: nat, heartbeatCount: nat)

  datatype Error = NoAdapter(ecosystem: string) | SessionNotFound(id: SessionId) | EmitFailed

  /** An accepted heartbeat: the clock reading it was checked against the timeout with, and the one
      it was stamped with. */
  datatype Beat = Beat(checkedAt: int, stampedAt: int)

  /** The session table, with the heartbeats accepted and the receipts returned for each session. */
  datatype Driver = Driver(
    sessions: map<SessionId, Entry>,
    beats: map<SessionId, seq<Beat>>,
    receipts: map<SessionId, seq<Receipt>>)

  const EMPTY := Driver(map[], map[], map[])

  datatype Op =
    | Open(id: SessionId, req: Request, now: int, emission: Emission)
    | Close(id: SessionId, now: int, emission: Emission)
    | Get(id: SessionId, now: int)
    | Heartbeat(id: SessionId, checkedAt: int, stampedAt: int)

  // ---------------------------------------------------------------------------
  // The operations on values
  // ---------------------------------------------------------------------------

  function Log<T>(m: map<SessionId, seq<T>>, id: SessionId): seq<T> {
    if id in m then m[id] else []
  }

  predicate Expired(e: Entry, now: int) {
    TimedOut(e.lastHeartbeat, e.request.timeout, now)
  }

  predicate IsLive(d: Driver, id: SessionId) {
    id in d.sessions && !d.sessions[id].state.Terminated?
  }

  function Describe(id: SessionId, e: Entry): Descriptor {
    Descriptor(id, e.request.packageId, e.request.ecosystem, e.state, e.request.requester,
               e.createdAt, e.lastHeartbeat, e.request.timeout / NANOS_PER_SECOND)
  }

  function ReceiptFor(id: SessionId, e: Entry, endedAt: int): Receipt {
    var uptime := WholeSeconds(endedAt - e.createdAt);
    Receipt(id, endedAt, if uptime > 0 then uptime else 0, e.heartbeatCount)
  }

  function Opened(d: Driver, id: SessionId, req: Request, now: int): Driver {
    d.(sessions := d.sessions[id := Entry(req, Active, now, now, 0)])
  }

  function Terminate(d: Driver, id: SessionId): Driver
    requires id in d.sessions
  {
    d.(sessions := d.sessions[id := d.sessions[id].(state := Terminated)])
  }

  function Apply(adapters: set<string>, d: Driver, op: Op): Driver {
    match op
    case Open(id, req, now, _) => if req.ecosystem in adapters then Opened(d, id, req, now) else d
    case Close(id, now, emission) =>
      if !IsLive(d, id) then d
      else if emission.Rejected? then Terminate(d, id)
      else Terminate(d, id).(receipts := d.receipts[id := Log(d.receipts, id) + [ReceiptFor(id, d.sessions[id], now)]])
    case Get(id, now) => if IsLive(d, id) && Expired(d.sessions[id], now) then Terminate(d, id) else d
    case Heartbeat(id, checkedAt, stampedAt) =>
      if !IsLive(d, id) then d
      else if Expired(d.sessions[id], checkedAt) then Terminate(d, id)
      else
        var e := d.sessions[id];
        d.(sessions := d.sessions[id := e.(lastHeartbeat := stampedAt, heartbeatCount := e.heartbeatCount + 1)],
           beats := d.beats[id := Log(d.beats, id) + [Beat(checkedAt, stampedAt)]])
  }

  // ---------------------------------------------------------------------------
  // The driver
  // ---------------------------------------------------------------------------

  class InMemorySessionDriver {
    const adapters: set<string>
    var sessions: map<SessionId, Entry>
    ghost var beats: map<SessionId, seq<Beat>>
    ghost var receipts: map<SessionId, seq<Receipt>>

    ghost function View(): Driver
      reads this
    {
      Driver(sessions, beats, receipts)
    }

    constructor (adapters: set<string>)
      ensures this.adapters == adapters && View() == EMPTY
    {
      this.adapters := adapters;
      sessions, beats, receipts := map[], map[], map[];
    }

    /** A rejected emission is reported after the session was stored. */
    method OpenSession(id: SessionId, req: Request, now: int, emission: Emission) returns (r: Result<Descriptor, Error>)
      modifies this
      ensures View() == Apply(adapters, old(View()), Open(id, req, now, emission))
      ensures r == if req.ecosystem !in adapters then Err(NoAdapter(req.ecosystem))
                   else if emission.Rejected? then Err(EmitFailed)
                   else Ok(Descriptor(id, req.packageId, req.ecosystem, Active, req.requester, now, now,
                                      req.timeout / 1_000_000_000))
      ensures sessions == if req.ecosystem in adapters then old(sessions)[id := Entry(req, Active, now, now, 0)]
                          else old(sessions)
    {
      if req.ecosystem !in adapters {
        return Err(NoAdapter(req.ecosystem));
      }
      var entry := Entry(req, Active, now, now, 0);
      sessions := sessions[id := entry];
      if emission.Rejected? {
        return Err(EmitFailed);
      }
      r := Ok(Describe(id, entry));
    }

    /** A rejected emission is reported after the session was terminated, and no receipt is
        returned. */
    method CloseSession(id: SessionId, now: int, emission: Emission) returns (r: Result<Receipt, Error>)
      modifies this
      ensures View() == Apply(adapters, old(View()), Close(id, now, emission))
      ensures r.Err? ==> r.error == if !IsLive(old(View()), id) then SessionNotFound(id) else EmitFailed
      ensures r.Ok? <==> IsLive(old(View()), id) && emission != Rejected
      ensures r.Ok? ==>
                var e, lived, uptime := old(sessions)[id], now - old(sessions)[id].createdAt, r.value.uptimeSeconds;
                && r.value == Receipt(id, now, uptime, e.heartbeatCount)
                && if lived < 0 then uptime == 0 else uptime * 1_000_000_000 <= lived < (uptime + 1) * 1_000_000_000
      ensures sessions == if IsLive(old(View()), id) then old(sessions)[id := old(sessions)[id].(state := Terminated)]
                          else old(sessions)
      ensures Log(receipts, id) == Log(old(receipts), id) + if r.Ok? then [r.value] else []
    {
      if id !in sessions {
        return Err(SessionNotFound(id));
      }
      var entry := sessions[id];
      if entry.state == Terminated {
        return Err(SessionNotFound(id));
      }
      sessions := sessions[id := entry.(state := Terminated)];
      var receipt := ReceiptFor(id, entry, now);
      if emission.Rejected? {
        return Err(EmitFailed);
      }
      receipts := receipts[id := Log(receipts, id) + [receipt]];
      r := Ok(receipt);
    }

    method GetSession(id: SessionId, now: int) returns (r: Result<Descriptor, Error>)
      modifies this
      ensures View() == Apply(adapters, old(View()), Get(id, now))
      ensures r == if id !in old(sessions) then Err(SessionNotFound(id))
                   else var e := sessions[id];
                        Ok(Descriptor(id, e.request.packageId, e.request.ecosystem, e.state, e.request.requester,
                                      e.createdAt, e.lastHeartbeat, e.request.timeout / 1_000_000_000))
      ensures sessions == if IsLive(old(View()), id) && Expired(old(sessions)[id], now)
                          then old(sessions)[id := old(sessions)[id].(state := Terminated)] else old(sessions)
      ensures r.Ok? ==> r.value.state == Terminated || !Expired(sessions[id], now)
    {
      if id !in sessions {
        return Err(SessionNotFound(id));
      }
      var entry := sessions[id];
      if entry.state != Terminated && Expired(entry, now) {
        entry := entry.(state := Terminated);
        sessions := sessions[id := entry];
      }
      r := Ok(Describe(id, entry));
    }

    method AcceptHeartbeat(id: SessionId, checkedAt: int, stampedAt: int) returns (r: Result<(), Error>)
      modifies this
      ensures View() == Apply(adapters, old(View()), Heartbeat(id, checkedAt, stampedAt))
      ensures r == if IsLive(old(View()), id) && !Expired(old(sessions)[id], checkedAt) then Ok(())
                   else Err(SessionNotFound(id))
      ensures sessions == if r.Ok? then old(sessions)[id := old(sessions)[id].(
                                          lastHeartbeat := stampedAt,
                                          heartbeatCount := old(sessions)[id].heartbeatCount + 1)]
                          else if IsLive(old(View()), id)
                          then old(sessions)[id := old(sessions)[id].(state := Terminated)]
                          else old(sessions)
    {
      if id !in sessions {
        return Err(SessionNotFound(id));
      }
      var entry := sessions[id];
      if entry.state == Terminated {
        return Err(SessionNotFound(id));
      }
      if Expired(entry, checkedAt) {
        sessions := sessions[id := entry.(state := Terminated)];
        return Err(SessionNotFound(id));
      }
      sessions := sessions[id := entry.(lastHeartbeat := stampedAt, heartbeatCount := entry.heartbeatCount + 1)];
      beats := beats[id := Log(beats, id) + [Beat(checkedAt, stampedAt)]];
      r := Ok(());
    }
  }

  // ---------------------------------------------------------------------------
  // Runs
  // ---------------------------------------------------------------------------

  function Run(adapters: set<string>, d: Driver, ops: seq<Op>): Driver
    decreases |ops|
  {
    if ops == [] then d else Run(adapters, Apply(adapters, d, ops[0]), ops[1..])
  }

  /** The readings that the session is stamped with do not run back, from its opening on: a heartbeat
      is checked no earlier than the last stamp and stamped no earlier than it is checked. Nothing
      is asked of readings taken for other sessions, for looking up or for closing. */
  ghost predicate OwnClockAdvances(id: SessionId, clock: int, ops: seq<Op>)
    decreases |ops|
  {
    ops == [] ||
    if ops[0].id == id && ops[0].Open? then
      OwnClockAdvances(id, ops[0].now, ops[1..])
    else if ops[0].id == id && ops[0].Heartbeat? then
      clock <= ops[0].checkedAt <= ops[0].stampedAt && OwnClockAdvances(id, ops[0].stampedAt, ops[1..])
    else
      OwnClockAdvances(id, clock, ops[1..])
  }

  /** No session is opened under the id. */
  ghost predicate NeverOpens(ops: seq<Op>, id: SessionId) {
    forall i :: 0 <= i < |ops| && ops[i].Open? ==> ops[i].id != id
  }

  /** Sessions get distinct ids that are not in the table. */
  ghost predicate FreshOpens(d: Driver, ops: seq<Op>) {
    && (forall i :: 0 <= i < |ops| && ops[i].Open? ==> ops[i].id !in d.sessions)
    && forall i, j :: 0 <= i < j < |ops| && ops[i].Open? && ops[j].Open? ==> ops[i].id != ops[j].id
  }

  /** When the k-th heartbeat came, the session had last been heard of at this time. */
  function HeardAt(createdAt: int, beats: seq<Beat>, k: nat): int
    requires k <= |beats|
  {
    if k == 0 then createdAt else beats[k - 1].stampedAt
  }

  /** A session expires exactly when the whole seconds of its timeout have passed since its last
      heartbeat; a timeout below one second is over at once. */
  lemma ExpiresExactly(e: Entry, now: int)
    ensures Expired(e, now) <==>
            var seconds := e.request.timeout / 1_000_000_000;
            if seconds == 0 then now > e.lastHeartbeat - 1_000_000_000
            else now >= e.lastHeartbeat + seconds * 1_000_000_000
  {
    TimedOutWindow(e.lastHeartbeat, e.request.timeout, now);
  }

  /** Every accepted heartbeat was checked less than the timeout after the one before it. */
  ghost predicate Timely(e: Entry, beats: seq<Beat>) {
    forall k :: 0 <= k < |beats| ==>
      && HeardAt(e.createdAt, beats, k) <= beats[k].checkedAt <= beats[k].stampedAt
      && beats[k].checkedAt - HeardAt(e.createdAt, beats, k)
           < (e.request.timeout / NANOS_PER_SECOND) * NANOS_PER_SECOND
  }

  /** What is counted of a session, whatever the clock does. */
  ghost predicate Counted(d: Driver, id: SessionId) {
    var beats, receipts := Log(d.beats, id), Log(d.receipts, id);
    if id in d.sessions then
      var e := d.sessions[id];
      && e.heartbeatCount == |beats|
      && e.lastHeartbeat == HeardAt(e.createdAt, beats, |beats|)
      && (e.state.Active? || e.state.Terminated?)
      && |receipts| <= 1
      && (receipts != [] ==> e.state.Terminated? && receipts[0].id == id && receipts[0].heartbeatCount == |beats|)
    else
      beats == [] && receipts == []
  }

  /** What its clock readings say, the last stamp being no later than `clock`. */
  ghost predicate InTime(d: Driver, id: SessionId, clock: int) {
    id in d.sessions ==> d.sessions[id].lastHeartbeat <= clock && Timely(d.sessions[id], Log(d.beats, id))
  }

  /** An accepted heartbeat joins the log. */
  lemma BeatStep(e: Entry, beats: seq<Beat>, beat: Beat)
    requires Timely(e, beats) && e.lastHeartbeat == HeardAt(e.createdAt, beats, |beats|)
    requires e.lastHeartbeat <= beat.checkedAt <= beat.stampedAt && !Expired(e, beat.checkedAt)
    ensures Timely(e, beats + [beat])
  {
    var beats' := beats + [beat];
    TimedOutWindow(e.lastHeartbeat, e.request.timeout, beat.checkedAt);
    forall k | 0 <= k < |beats'|
      ensures && HeardAt(e.createdAt, beats', k) <= beats'[k].checkedAt <= beats'[k].stampedAt
              && beats'[k].checkedAt - HeardAt(e.createdAt, beats', k)
                   < (e.request.timeout / NANOS_PER_SECOND) * NANOS_PER_SECOND
    {
      assert HeardAt(e.createdAt, beats', k) == HeardAt(e.createdAt, beats, k);
      assert k < |beats| ==> beats'[k] == beats[k];
    }
  }

  /** An operation on one session leaves the others alone. */
  lemma OtherSession(adapters: set<string>, d: Driver, op: Op, id: SessionId)
    requires op.id != id
    ensures var d' := Apply(adapters, d, op);
            && (id in d'.sessions <==> id in d.sessions)
            && (id in d.sessions ==> d'.sessions[id] == d.sessions[id])
            && Log(d'.beats, id) == Log(d.beats, id) && Log(d'.receipts, id) == Log(d.receipts, id)
  {
  }

  lemma CountedStep(adapters: set<string>, d: Driver, op: Op, id: SessionId)
    requires Counted(d, id)
    requires op.Open? && op.id == id ==> id !in d.sessions
    ensures Counted(Apply(adapters, d, op), id)
  {
    if op.id != id {
      OtherSession(adapters, d, op, id);
    }
  }

  lemma InTimeStep(adapters: set<string>, d: Driver, op: Op, id: SessionId, clock: int) returns (clock': int)
    requires Counted(d, id) && InTime(d, id, clock) && OwnClockAdvances(id, clock, [op])
    requires op.Open? && op.id == id ==> id !in d.sessions
    ensures InTime(Apply(adapters, d, op), id, clock')
    ensures clock' == if op.id == id && op.Open? then op.now
                      else if op.id == id && op.Heartbeat? then op.stampedAt else clock
  {
    clock' := clock;
    if op.id != id {
      OtherSession(adapters, d, op, id);
    } else if op.Open? {
      clock' := op.now;
    } else if op.Heartbeat? {
      clock' := op.stampedAt;
      if IsLive(d, id) && !Expired(d.sessions[id], op.checkedAt) {
        BeatStep(d.sessions[id], Log(d.beats, id), Beat(op.checkedAt, op.stampedAt));
      }
    }
  }

  /** Fresh ids stay fresh after the first operation. */
  lemma FreshTail(adapters: set<string>, d: Driver, ops: seq<Op>)
    requires ops != [] && FreshOpens(d, ops)
    ensures FreshOpens(Apply(adapters, d, ops[0]), ops[1..])
  {
    var d', rest := Apply(adapters, d, ops[0]), ops[1..];
    forall i | 0 <= i < |rest| && rest[i].Open?
      ensures rest[i].id !in d'.sessions
    {
      assert rest[i] == ops[i + 1];
    }
  }

  lemma {:induction false} CountedRun(adapters: set<string>, d: Driver, ops: seq<Op>, id: SessionId)
    requires FreshOpens(d, ops) && Counted(d, id)
    ensures Counted(Run(adapters, d, ops), id)
    decreases |ops|
  {
    if ops != [] {
      CountedStep(adapters, d, ops[0], id);
      FreshTail(adapters, d, ops);
      CountedRun(adapters, Apply(adapters, d, ops[0]), ops[1..], id);
    }
  }

  lemma {:induction false} InTimeRun(adapters: set<string>, d: Driver, ops: seq<Op>, clock: int, id: SessionId)
    returns (clock': int)
    requires OwnClockAdvances(id, clock, ops) && FreshOpens(d, ops) && Counted(d, id) && InTime(d, id, clock)
    ensures InTime(Run(adapters, d, ops), id, clock')
    decreases |ops|
  {
    clock' := clock;
    if ops != [] {
      assert OwnClockAdvances(id, clock, [ops[0]]);
      clock' := InTimeStep(adapters, d, ops[0], id, clock);
      CountedStep(adapters, d, ops[0], id);
      FreshTail(adapters, d, ops);
      clock' := InTimeRun(adapters, Apply(adapters, d, ops[0]), ops[1..], clock', id);
    }
  }

  /** After any run, whatever the clock does: the counter of a session is the number of heartbeats
      accepted, and it has at most one receipt, only once terminated, whose count is that number. */
  lemma CountsAfterRun(adapters: set<string>, ops: seq<Op>, id: SessionId)
    requires FreshOpens(EMPTY, ops)
    ensures var d := Run(adapters, EMPTY, ops);
            var beats, receipts := Log(d.beats, id), Log(d.receipts, id);
            && (id in d.sessions ==> d.sessions[id].heartbeatCount == |beats|)
            && |receipts| <= 1
            && (receipts != [] ==> id in d.sessions && d.sessions[id].state.Terminated? &&
                                   receipts[0].id == id && receipts[0].heartbeatCount == |beats|)
  {
    CountedRun(adapters, EMPTY, ops, id);
  }

  /** If the session's own stamps do not run back, every heartbeat accepted for it was checked within
      the timeout of the one before it; and the counts are right in any case. */
  lemma SessionAfterRun(adapters: set<string>, ops: seq<Op>, clock: int, id: SessionId)
    requires OwnClockAdvances(id, clock, ops) && FreshOpens(EMPTY, ops)
    ensures var d := Run(adapters, EMPTY, ops);
            var beats, receipts := Log(d.beats, id), Log(d.receipts, id);
            && (id in d.sessions ==> Timely(d.sessions[id], beats) && d.sessions[id].heartbeatCount == |beats|)
            && |receipts| <= 1
            && (receipts != [] ==> id in d.sessions && d.sessions[id].state.Terminated? &&
                                   receipts[0].heartbeatCount == |beats|)
  {
    CountsAfterRun(adapters, ops, id);
    var _ := InTimeRun(adapters, EMPTY, ops, clock, id);
  }

  /** A terminated session is never touched again. */
  lemma {:induction false} TerminatedIsFinal(adapters: set<string>, d: Driver, ops: seq<Op>, id: SessionId)
    requires id in d.sessions && d.sessions[id].state.Terminated? && NeverOpens(ops, id)
    ensures var d' := Run(adapters, d, ops);
            && id in d'.sessions && d'.sessions[id] == d.sessions[id]
            && Log(d'.beats, id) == Log(d.beats, id) && Log(d'.receipts, id) == Log(d.receipts, id)
    decreases |ops|
  {
    if ops != [] {
      TerminatedIsFinal(adapters, Apply(adapters, d, ops[0]), ops[1..], id);
    }
  }
}
