/**
 The container-backed session driver. Every operation is cut at the points where it gives up
 the lock on the session table: a class method for each section that holds the lock, and a
 protocol in which the sections of any number of operations interleave.
 */
module ContainerSessions {
  import opened Wrappers
  import opened Timing

  type SessionId = string

  datatype ContainerState = Idle | Starting | Active | Paused | Reclaimed

  datatype DriverState = Allocating | Running | Suspended | Terminated

  datatype Request = Request(packageId: string, requester: string, timeout: nat)

  /** The tracking record of one session; the container is named after the session. */
  datatype Handle = Handle(
    state: ContainerState,
    containerId: Option<string>,
    request: Request,
    createdAt: int,
    lastHeartbeat: int,
    heartbeatCount: nat)

  type Sessions = map<SessionId, Handle>

  datatype Descriptor = Descriptor(
    id: SessionId, packageId: string, requester: string, state: DriverState,
    createdAt: int, lastHeartbeat: int, timeoutSeconds: nat)

  datatype Receipt = Receipt(id: SessionId, endedAt: int, uptimeSeconds: nat, heartbeatCount: nat)

  datatype Error =
    | SessionNotFound(id: SessionId)
    | QuotaExceeded(requester: string, active: nat, quota: nat)
    | WrongState(state: ContainerState)
    | RuntimeMissing
    | CommandFailed

  /** What inspecting a container gave: the runtime is missing, the inspection failed, or it
      printed a state. */
  datatype Probe = NoRuntime | InspectFailed | Observed(oci: string)

  const U32_RANGE: nat := 0x1_0000_0000

  // ---------------------------------------------------------------------------
  // The session table
  // ---------------------------------------------------------------------------

  predicate IsLive(c: Sessions, id: SessionId) {
    id in c && !c[id].state.Reclaimed?
  }

  predicate IsReclaimed(c: Sessions, id: SessionId) {
    id in c && c[id].state.Reclaimed?
  }

  function Live(c: Sessions): set<SessionId> {
    set id | id in c && !c[id].state.Reclaimed?
  }

  function DriverStateOf(state: ContainerState): DriverState {
    match state
    case Idle => Allocating
    case Starting => Allocating
    case Active => Running
    case Paused => Suspended
    case Reclaimed => Terminated
  }

  function Describe(id: SessionId, h: Handle): Descriptor {
    Descriptor(id, h.request.packageId, h.request.requester, DriverStateOf(h.state),
               h.createdAt, h.lastHeartbeat, h.request.timeout / NANOS_PER_SECOND)
  }

  function FromOci(oci: string): ContainerState {
    if oci == "running" then Active
    else if oci == "paused" then Paused
    else if oci == "created" || oci == "initializing" then Starting
    else Reclaimed
  }

  /** The live count the quota check sees: the table size cast to 32 bits. */
  function CountedLive(c: Sessions): nat {
    |Live(c)| % U32_RANGE
  }

  function FreshHandle(req: Request, now: int): Handle {
    Handle(Idle, None, req, now, now, 0)
  }

  /** An unconditional write of a session's state: it does not look at the state it replaces. */
  function WithState(c: Sessions, id: SessionId, state: ContainerState): Sessions {
    if id in c then c[id := c[id].(state := state)] else c
  }

  function Activated(c: Sessions, id: SessionId, containerId: string): Sessions {
    if id in c then c[id := c[id].(state := Active, containerId := Some(containerId))] else c
  }

  predicate Expired(h: Handle, now: int) {
    TimedOut(h.lastHeartbeat, h.request.timeout, now)
  }

  /** The state a live session has after it was looked up. */
  function Refreshed(h: Handle, now: int, probe: Probe): ContainerState {
    if Expired(h, now) then Reclaimed
    else if (h.state.Active? || h.state.Paused?) && !probe.NoRuntime? then
      if probe.InspectFailed? then Reclaimed else FromOci(probe.oci)
    else h.state
  }

  function AfterGet(c: Sessions, id: SessionId, now: int, probe: Probe): Sessions {
    if IsLive(c, id) then WithState(c, id, Refreshed(c[id], now, probe)) else c
  }

  /** `checkedAt` and `stampedAt` are the two clock reads of a heartbeat. */
  function AfterHeartbeat(c: Sessions, id: SessionId, checkedAt: int, stampedAt: int): Sessions {
    if !IsLive(c, id) then c
    else if Expired(c[id], checkedAt) then WithState(c, id, Reclaimed)
    else c[id := c[id].(lastHeartbeat := stampedAt, heartbeatCount := c[id].heartbeatCount + 1)]
  }

  // ---------------------------------------------------------------------------
  // The driver: one method for each section that holds the lock
  // ---------------------------------------------------------------------------

  class SessionContainerDriver {
    const maxSessions: nat
    var containers: Sessions

    constructor (maxSessions: nat)
      requires maxSessions < U32_RANGE
      ensures this.maxSessions == maxSessions && containers == map[]
    {
      this.maxSessions := maxSessions;
      containers := map[];
    }

    /** Opening, section 1: the quota check, under a read lock. */
    method CheckQuota(req: Request) returns (r: Result<(), Error>)
      ensures r.Ok? <==> CountedLive(containers) < maxSessions
      ensures r.Err? ==> r.error == QuotaExceeded(req.requester, CountedLive(containers), maxSessions)
    {
      var current := CountedLive(containers);
      if current >= maxSessions {
        return Err(QuotaExceeded(req.requester, current, maxSessions));
      }
      r := Ok(());
    }

    /** Opening, section 2: the handle goes into the table as idle. */
    method InsertIdle(id: SessionId, req: Request, now: int)
      modifies this`containers
      ensures containers == old(containers)[id := Handle(Idle, None, req, now, now, 0)]
    {
      containers := containers[id := FreshHandle(req, now)];
    }

    /** Opening, section 3, with `Starting`; pausing and resuming, section 2, after the runtime
        command succeeded. */
    method MarkState(id: SessionId, state: ContainerState)
      modifies this`containers
      ensures containers == WithState(old(containers), id, state)
    {
      if id in containers {
        containers := containers[id := containers[id].(state := state)];
      }
    }

    /** Opening, section 4, after the container was launched. */
    method MarkLaunched(id: SessionId, containerId: string)
      modifies this`containers
      ensures containers == Activated(old(containers), id, containerId)
    {
      if id in containers {
        containers := containers[id := containers[id].(state := Active, containerId := Some(containerId))];
      }
    }

    method CloseSession(id: SessionId, now: int) returns (r: Result<Receipt, Error>)
      modifies this`containers
      ensures r.Ok? <==> IsLive(old(containers), id)
      ensures containers == if r.Ok? then WithState(old(containers), id, Reclaimed) else old(containers)
      ensures r.Ok? ==> r.value.id == id && r.value.endedAt == now &&
                        r.value.heartbeatCount == old(containers)[id].heartbeatCount
      ensures r.Ok? ==>
                var lived, uptime := now - old(containers)[id].createdAt, r.value.uptimeSeconds;
                if lived < 0 then uptime == 0
                else uptime * 1_000_000_000 <= lived < (uptime + 1) * 1_000_000_000
      ensures r.Err? ==> r.error == SessionNotFound(id)
    {
      if id !in containers {
        return Err(SessionNotFound(id));
      }
      var entry := containers[id];
      if entry.state == Reclaimed {
        return Err(SessionNotFound(id));
      }
      containers := containers[id := entry.(state := Reclaimed)];
      var uptime := WholeSeconds(now - entry.createdAt);
      r := Ok(Receipt(id, now, if uptime > 0 then uptime else 0, entry.heartbeatCount));
    }

    method GetSession(id: SessionId, now: int, probe: Probe) returns (r: Result<Descriptor, Error>)
      modifies this`containers
      ensures containers == AfterGet(old(containers), id, now, probe)
      ensures r.Ok? <==> IsLive(containers, id)
      ensures r.Ok? ==>
                var h := containers[id];
                r.value == Descriptor(id, h.request.packageId, h.request.requester,
                                      if h.state == Active then Running
                                      else if h.state == Paused then Suspended else Allocating,
                                      h.createdAt, h.lastHeartbeat, h.request.timeout / 1_000_000_000)
      ensures r.Err? ==> r.error == SessionNotFound(id)
      ensures IsLive(old(containers), id) && !Expired(old(containers)[id], now) ==>
                var h, h' := old(containers)[id], containers[id];
                && h' == h.(state := h'.state)
                && if (h.state == Active || h.state == Paused) && !probe.NoRuntime? then
                     && (h'.state == Active <==> probe == Observed("running"))
                     && (h'.state == Paused <==> probe == Observed("paused"))
                     && (h'.state == Starting <==> probe == Observed("created") || probe == Observed("initializing"))
                     && h'.state != Idle
                   else h'.state == h.state
    {
      if id !in containers {
        return Err(SessionNotFound(id));
      }
      var entry := containers[id];
      if entry.state == Reclaimed {
        return Err(SessionNotFound(id));
      }
      if Expired(entry, now) {
        containers := containers[id := entry.(state := Reclaimed)];
        return Err(SessionNotFound(id));
      }
      if (entry.state == Active || entry.state == Paused) && !probe.NoRuntime? {
        match probe {
          case Observed(oci) =>
            var observed := FromOci(oci);
            if observed != entry.state {
              entry := entry.(state := observed);
            }
          case _ =>
            entry := entry.(state := Reclaimed);
        }
      }
      containers := containers[id := entry];
      if entry.state == Reclaimed {
        return Err(SessionNotFound(id));
      }
      r := Ok(Describe(id, entry));
    }

    method Heartbeat(id: SessionId, checkedAt: int, stampedAt: int) returns (r: Result<(), Error>)
      modifies this`containers
      ensures containers == AfterHeartbeat(old(containers), id, checkedAt, stampedAt)
      ensures r.Ok? <==> IsLive(old(containers), id) && !Expired(old(containers)[id], checkedAt)
      ensures r.Ok? ==>
                containers == old(containers)[id := old(containers)[id].(
                                lastHeartbeat := stampedAt, heartbeatCount := old(containers)[id].heartbeatCount + 1)]
      ensures r.Err? ==>
                containers == if IsLive(old(containers), id)
                              then old(containers)[id := old(containers)[id].(state := Reclaimed)]
                              else old(containers)
      ensures r.Err? ==> r.error == SessionNotFound(id)
    {
      if id !in containers {
        return Err(SessionNotFound(id));
      }
      var entry := containers[id];
      if entry.state == Reclaimed {
        return Err(SessionNotFound(id));
      }
      if Expired(entry, checkedAt) {
        containers := containers[id := entry.(state := Reclaimed)];
        return Err(SessionNotFound(id));
      }
      containers := containers[id := entry.(lastHeartbeat := stampedAt, heartbeatCount := entry.heartbeatCount + 1)];
      r := Ok(());
    }

    /** Pausing and resuming, section 1: the state is read and compared, under a read lock. */
    method CheckState(id: SessionId, expected: ContainerState) returns (r: Result<(), Error>)
      ensures r.Ok? <==> id in containers && containers[id].state == expected
      ensures r.Err? ==> r.error == if id in containers then WrongState(containers[id].state) else SessionNotFound(id)
    {
      if id !in containers {
        return Err(SessionNotFound(id));
      }
      if containers[id].state != expected {
        return Err(WrongState(containers[id].state));
      }
      r := Ok(());
    }

    /** The whole of opening, when nothing comes between its sections. A failed launch leaves the
        session in the table, starting, where it counts against the quota. */
    method OpenSession(id: SessionId, req: Request, now: int, hasRuntime: bool, launched: Option<string>)
      returns (r: Result<Descriptor, Error>)
      modifies this`containers
      ensures r == if !hasRuntime then Err(RuntimeMissing)
                   else if CountedLive(old(containers)) >= maxSessions
                   then Err(QuotaExceeded(req.requester, CountedLive(old(containers)), maxSessions))
                   else if launched.None? then Err(CommandFailed)
                   else Ok(Descriptor(id, req.packageId, req.requester, Running, now, now,
                                      req.timeout / NANOS_PER_SECOND))
      ensures containers == if !hasRuntime || CountedLive(old(containers)) >= maxSessions then old(containers)
                            else old(containers)[id := Handle(if launched.Some? then Active else Starting, launched,
                                                              req, now, now, 0)]
    {
      if !hasRuntime {
        return Err(RuntimeMissing);
      }
      var admitted := CheckQuota(req);
      if admitted.Err? {
        return Err(admitted.error);
      }
      InsertIdle(id, req, now);
      MarkState(id, Starting);
      if launched.None? {
        return Err(CommandFailed);
      }
      MarkLaunched(id, launched.value);
      r := Ok(Describe(id, containers[id]));
    }

    /** The whole of pausing and of resuming, when nothing comes between the sections. */
    method Switch(id: SessionId, from: ContainerState, to: ContainerState, commandOk: bool)
      returns (r: Result<(), Error>)
      requires (from == Active && to == Paused) || (from == Paused && to == Active)
      modifies this`containers
      ensures r.Ok? <==> id in old(containers) && old(containers)[id].state == from && commandOk
      ensures r.Err? ==> r.error == if id !in old(containers) then SessionNotFound(id)
                                    else if old(containers)[id].state != from then WrongState(old(containers)[id].state)
                                    else CommandFailed
      ensures containers == if r.Ok? then old(containers)[id := old(containers)[id].(state := to)] else old(containers)
    {
      var checked := CheckState(id, from);
      if checked.Err? {
        return Err(checked.error);
      }
      if !commandOk {
        return Err(CommandFailed);
      }
      MarkState(id, to);
      r := Ok(());
    }
  }
}
