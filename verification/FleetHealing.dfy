/**
 Cross-machine healing: a registry of remote hosts, health observations with failure counters,
 and the healing decisions taken from them.
 */
module FleetHealing {
  import opened Wrappers

  datatype Scope = LocalOnly | SameCluster | FullFleet

  datatype Health = Healthy | Degraded | Failed | Unknown

  const U64_MAX: nat := 0xFFFF_FFFF_FFFF_FFFF

  /** Counters are 64 bits wide and saturate. */
  type Counter = n: nat | n <= U64_MAX

  function SaturatingInc(n: Counter): Counter {
    if n == U64_MAX then U64_MAX else n + 1
  }

  datatype Component = Component(id: string, hostId: string, state: Health, lastSeen: int,
                                 failureCount: Counter, restartAttempts: Counter)

  datatype Host = Host(id: string, clusterId: string, isReachable: bool, lastHeartbeat: int,
                       components: map<string, Component>)

  datatype Decision = RestartLocally | FailoverTo(target: string) | Isolate | Escalate

  datatype Error = HostNotFound(hostId: string) | ScopeDenied(decision: Decision)

  // ---------------------------------------------------------------------------
  // The registry on values
  // ---------------------------------------------------------------------------

  /** The first host with the id. */
  function FindHost(hosts: seq<Host>, hostId: string): (r: Option<nat>)
    ensures r.Some? ==> r.value < |hosts| && hosts[r.value].id == hostId
  {
    if hosts == [] then None
    else if hosts[0].id == hostId then Some(0)
    else
      var rest := FindHost(hosts[1..], hostId);
      if rest.Some? then Some(rest.value + 1) else None
  }

  lemma {:induction false} FindHostIsFirst(hosts: seq<Host>, hostId: string)
    ensures FindHost(hosts, hostId).None? <==> forall i :: 0 <= i < |hosts| ==> hosts[i].id != hostId
    ensures FindHost(hosts, hostId).Some? ==>
              forall i :: 0 <= i < FindHost(hosts, hostId).value ==> hosts[i].id != hostId
  {
    if hosts != [] && hosts[0].id != hostId {
      FindHostIsFirst(hosts[1..], hostId);
      assert forall i :: 0 < i < |hosts| ==> hosts[i] == hosts[1..][i - 1];
    }
  }

  function Registered(hosts: seq<Host>, hostId: string, now: int): seq<Host> {
    if FindHost(hosts, hostId).Some? then hosts else hosts + [Host(hostId, "default", true, now, map[])]
  }

  function OtherThan(hostId: string): Host -> bool {
    (h: Host) => h.id != hostId
  }

  function Removed(hosts: seq<Host>, hostId: string): seq<Host> {
    Filter(hosts, OtherThan(hostId))
  }

  /** Exactly the hosts with other ids remain. */
  lemma {:induction false} RemovedMembers(hosts: seq<Host>, hostId: string)
    ensures forall h :: h in Removed(hosts, hostId) <==> h in hosts && h.id != hostId
  {
    if hosts != [] {
      RemovedMembers(hosts[1..], hostId);
      assert hosts == [hosts[0]] + hosts[1..];
    }
  }

  function Min(a: nat, b: nat): nat {
    if a <= b then a else b
  }

  predicate IsBad(h: Health) {
    h.Failed? || h.Degraded?
  }

  /** A component entry after an observation; the first observation creates it. A bad observation is
      stamped with the clock, not with its own time. */
  function Observed(entry: Option<Component>, seen: Component, now: int): Component {
    var e := (if entry.Some? then entry.value else seen).(state := seen.state, lastSeen := seen.lastSeen);
    match seen.state
    case Failed => e.(failureCount := SaturatingInc(e.failureCount), lastSeen := now)
    case Degraded => e.(failureCount := SaturatingInc(e.failureCount), lastSeen := now)
    case Unknown => e.(failureCount := seen.failureCount)
    case Healthy => e.(failureCount := 0)
  }

  function ComponentOf(h: Host, id: string): Option<Component> {
    if id in h.components then Some(h.components[id]) else None
  }

  function ObservedHost(h: Host, seen: Component, heartbeatAt: int, now: int): Host {
    h.(lastHeartbeat := heartbeatAt, isReachable := true,
       components := h.components[seen.id := Observed(ComponentOf(h, seen.id), seen, now)])
  }

  function ObservedFleet(hosts: seq<Host>, hostId: string, seen: Component, heartbeatAt: int, now: int): seq<Host> {
    match FindHost(hosts, hostId)
    case None => hosts
    case Some(i) => hosts[i := ObservedHost(hosts[i], seen, heartbeatAt, now)]
  }

  /** A restart attempt recorded for a component. */
  function Restarted(hosts: seq<Host>, hostId: string, componentId: string): seq<Host> {
    match FindHost(hosts, hostId)
    case None => hosts
    case Some(i) =>
      if componentId !in hosts[i].components then hosts
      else
        var c := hosts[i].components[componentId];
        hosts[i := hosts[i].(components :=
                 hosts[i].components[componentId := c.(restartAttempts := SaturatingInc(c.restartAttempts))])]
  }

  // ---------------------------------------------------------------------------
  // Decisions
  // ---------------------------------------------------------------------------

  /** May a component of `host` fail over to `h`? */
  predicate IsFailoverTarget(h: Host, hostId: string, clusterId: string) {
    h.id != hostId && h.isReachable && h.clusterId == clusterId
  }

  /** The first host in registry order that can take the component over. */
  function FailoverTarget(hosts: seq<Host>, hostId: string, clusterId: string): (r: Option<nat>)
    ensures r.None? <==> forall i :: 0 <= i < |hosts| ==> !IsFailoverTarget(hosts[i], hostId, clusterId)
    ensures r.Some? ==> r.value < |hosts| && IsFailoverTarget(hosts[r.value], hostId, clusterId)
    ensures r.Some? ==> forall i :: 0 <= i < r.value ==> !IsFailoverTarget(hosts[i], hostId, clusterId)
  {
    if hosts == [] then None
    else if IsFailoverTarget(hosts[0], hostId, clusterId) then Some(0)
    else
      var rest := FailoverTarget(hosts[1..], hostId, clusterId);
      assert forall i :: 0 < i < |hosts| ==> hosts[i] == hosts[1..][i - 1];
      if rest.Some? then Some(rest.value + 1) else None
  }

  function DecideHeal(hosts: seq<Host>, scope: Scope, hostId: string, componentId: string): Option<Decision> {
    match FindHost(hosts, hostId)
    case None => None
    case Some(i) =>
      if componentId !in hosts[i].components || scope.LocalOnly? then None
      else
        var c := hosts[i].components[componentId];
        match c.state
        case Healthy => None
        case Degraded => if c.restartAttempts < 3 && c.failureCount < 5 then Some(RestartLocally) else Some(Escalate)
        case Failed =>
          (match FailoverTarget(hosts, hostId, hosts[i].clusterId)
           case Some(t) => Some(FailoverTo(hosts[t].id))
           case None => if c.failureCount >= 3 then Some(Isolate) else Some(RestartLocally))
        case Unknown => if c.failureCount > 0 then Some(Escalate) else None
  }

  function ExecuteHeal(scope: Scope, d: Decision): Result<(), Error> {
    if (d.FailoverTo? || d.Isolate?) && scope.LocalOnly? then Err(ScopeDenied(d)) else Ok(())
  }

  predicate HasComponentIn(h: Host, state: Health) {
    exists id :: id in h.components && h.components[id].state == state
  }

  predicate Ailing(h: Host) {
    HasComponentIn(h, Failed) || HasComponentIn(h, Degraded)
  }

  /** The ids of the ailing hosts, in registry order. */
  function AilingIds(hosts: seq<Host>): seq<string> {
    if hosts == [] then []
    else (if Ailing(hosts[0]) then [hosts[0].id] else []) + AilingIds(hosts[1..])
  }

  const CASCADE_THRESHOLD: nat := 2

  function CascadingFailureCheck(hosts: seq<Host>): seq<string> {
    if |AilingIds(hosts)| >= CASCADE_THRESHOLD then AilingIds(hosts) else []
  }

  function ReachableCount(hosts: seq<Host>): (n: nat)
    ensures n <= |hosts|
    ensures n == |hosts| <==> forall i :: 0 <= i < |hosts| ==> hosts[i].isReachable
    ensures n == 0 <==> forall i :: 0 <= i < |hosts| ==> !hosts[i].isReachable
  {
    if hosts == [] then 0
    else
      assert forall i :: 0 < i < |hosts| ==> hosts[i] == hosts[1..][i - 1];
      (if hosts[0].isReachable then 1 else 0) + ReachableCount(hosts[1..])
  }

  predicate AnyHostWith(hosts: seq<Host>, state: Health) {
    exists i :: 0 <= i < |hosts| && HasComponentIn(hosts[i], state)
  }

  function FleetHealth(hosts: seq<Host>): string {
    if hosts == [] then "Unknown"
    else
      var reachable := ReachableCount(hosts);
      if reachable == 0 then "QuorumLost"
      else if AnyHostWith(hosts, Failed) then "Critical"
      else if AnyHostWith(hosts, Degraded) then "Degraded"
      else if reachable == |hosts| then "Healthy"
      else "Degraded"
  }

  // ---------------------------------------------------------------------------
  // The coordinator
  // ---------------------------------------------------------------------------

  class CrossMachineHealing {
    var remoteHosts: seq<Host>
    var healingScope: Scope

    constructor ()
      ensures remoteHosts == [] && healingScope == LocalOnly
    {
      remoteHosts, healingScope := [], LocalOnly;
    }

    method RegisterHost(hostId: string, now: int)
      modifies this`remoteHosts
      ensures remoteHosts == Registered(old(remoteHosts), hostId, now)
      ensures remoteHosts == if exists i :: 0 <= i < |old(remoteHosts)| && old(remoteHosts)[i].id == hostId
                             then old(remoteHosts)
                             else old(remoteHosts) + [Host(hostId, "default", true, now, map[])]
    {
      FindHostIsFirst(remoteHosts, hostId);
      if exists i :: 0 <= i < |remoteHosts| && remoteHosts[i].id == hostId {
        return;
      }
      remoteHosts := remoteHosts + [Host(hostId, "default", true, now, map[])];
    }

    method RemoveHost(hostId: string)
      modifies this`remoteHosts
      ensures remoteHosts == Removed(old(remoteHosts), hostId)
      ensures forall h :: h in remoteHosts <==> h in old(remoteHosts) && h.id != hostId
    {
      RemovedMembers(remoteHosts, hostId);
      remoteHosts := Removed(remoteHosts, hostId);
    }

    /** `heartbeatAt` and `now` are the clock readings for the host and for the failure. */
    method ObserveRemoteHealth(hostId: string, seen: Component, heartbeatAt: int, now: int)
      returns (r: Result<(), Error>)
      modifies this`remoteHosts
      ensures remoteHosts == ObservedFleet(old(remoteHosts), hostId, seen, heartbeatAt, now)
      ensures r == if FindHost(old(remoteHosts), hostId).Some? then Ok(()) else Err(HostNotFound(hostId))
      ensures r.Ok? <==> exists i :: 0 <= i < |old(remoteHosts)| && old(remoteHosts)[i].id == hostId
      ensures r.Err? ==> remoteHosts == old(remoteHosts)
      ensures r.Ok? ==>
                var i := FindHost(old(remoteHosts), hostId).value;
                var h := old(remoteHosts)[i];
                var entry := if seen.id in h.components then h.components[seen.id] else seen;
                remoteHosts == old(remoteHosts)[i := Host(h.id, h.clusterId, true, heartbeatAt, h.components[seen.id :=
                  Component(entry.id, entry.hostId, seen.state,
                            if seen.state in {Failed, Degraded} then now else seen.lastSeen,
                            match seen.state
                            case Healthy => 0
                            case Unknown => seen.failureCount
                            case _ => Min(0xFFFF_FFFF_FFFF_FFFF, entry.failureCount + 1),
                            entry.restartAttempts)])]
    {
      FindHostIsFirst(remoteHosts, hostId);
      var i := FindHost(remoteHosts, hostId);
      if i.None? {
        return Err(HostNotFound(hostId));
      }
      var host := remoteHosts[i.value].(lastHeartbeat := heartbeatAt, isReachable := true);
      var entry := if seen.id in host.components then host.components[seen.id] else seen;
      entry := entry.(state := seen.state, lastSeen := seen.lastSeen);
      match seen.state {
        case Unknown => entry := entry.(failureCount := seen.failureCount);
        case Healthy => entry := entry.(failureCount := 0);
        case _ => entry := entry.(failureCount := SaturatingInc(entry.failureCount), lastSeen := now);
      }
      remoteHosts := remoteHosts[i.value := host.(components := host.components[seen.id := entry])];
      r := Ok(());
    }
  }

  // ---------------------------------------------------------------------------
  // Runs
  // ---------------------------------------------------------------------------

  datatype Op =
    | Register(hostId: string, now: int)
    | Remove(hostId: string)
    | Observe(hostId: string, seen: Component, heartbeatAt: int, now: int)
    | Restart(hostId: string, componentId: string)

  function Apply(hosts: seq<Host>, op: Op): seq<Host> {
    match op
    case Register(hostId, now) => Registered(hosts, hostId, now)
    case Remove(hostId) => Removed(hosts, hostId)
    case Observe(hostId, seen, heartbeatAt, now) => ObservedFleet(hosts, hostId, seen, heartbeatAt, now)
    case Restart(hostId, componentId) => Restarted(hosts, hostId, componentId)
  }

  function Run(hosts: seq<Host>, ops: seq<Op>): seq<Host>
    decreases |ops|
  {
    if ops == [] then hosts else Apply(Run(hosts, ops[..|ops| - 1]), ops[|ops| - 1])
  }

  ghost predicate UniqueIds(hosts: seq<Host>) {
    forall i, j :: 0 <= i < j < |hosts| ==> hosts[i].id != hosts[j].id
  }

  lemma {:induction false} RemovedKeepsUnique(hosts: seq<Host>, hostId: string)
    requires UniqueIds(hosts)
    ensures UniqueIds(Removed(hosts, hostId))
  {
    if hosts != [] {
      var rest := Removed(hosts[1..], hostId);
      RemovedKeepsUnique(hosts[1..], hostId);
      RemovedMembers(hosts[1..], hostId);
      forall j | 0 <= j < |rest|
        ensures rest[j].id != hosts[0].id
      {
        assert rest[j] in rest;
        var k :| 0 <= k < |hosts[1..]| && hosts[1..][k] == rest[j];
        assert hosts[k + 1] == rest[j];
      }
    }
  }

  /** Host ids stay unique, whatever is registered, removed or observed. */
  lemma {:induction false} IdsStayUnique(hosts: seq<Host>, ops: seq<Op>)
    requires UniqueIds(hosts)
    ensures UniqueIds(Run(hosts, ops))
    decreases |ops|
  {
    if ops != [] {
      var before, op := Run(hosts, ops[..|ops| - 1]), ops[|ops| - 1];
      IdsStayUnique(hosts, ops[..|ops| - 1]);
      if op.Remove? {
        RemovedKeepsUnique(before, op.hostId);
      } else {
        FindHostIsFirst(before, op.hostId);
      }
    }
  }

  // ---------------------------------------------------------------------------
  // One component through a run
  // ---------------------------------------------------------------------------

  /** The entry the registry holds for a component of a host. */
  function Lookup(hosts: seq<Host>, hostId: string, componentId: string): Option<Component> {
    match FindHost(hosts, hostId)
    case None => None
    case Some(i) => ComponentOf(hosts[i], componentId)
  }

  /** What an operation leaves in the entry of one component of a registered host. */
  function EntryAfter(entry: Option<Component>, op: Op, hostId: string, componentId: string): Option<Component> {
    match op
    case Observe(h, seen, _, now) =>
      if h == hostId && seen.id == componentId then Some(Observed(entry, seen, now)) else entry
    case Restart(h, c) =>
      if h == hostId && c == componentId && entry.Some?
      then Some(entry.value.(restartAttempts := SaturatingInc(entry.value.restartAttempts))) else entry
    case _ => entry
  }

  function EntryRun(entry: Option<Component>, ops: seq<Op>, hostId: string, componentId: string): Option<Component> {
    if ops == [] then entry
    else EntryAfter(EntryRun(entry, ops[..|ops| - 1], hostId, componentId), ops[|ops| - 1], hostId, componentId)
  }

  ghost predicate NeverRemoves(ops: seq<Op>, hostId: string) {
    forall i :: 0 <= i < |ops| ==> ops[i] != Remove(hostId)
  }

  lemma {:induction false} FindStable(hosts: seq<Host>, hosts': seq<Host>, hostId: string)
    requires FindHost(hosts, hostId).Some? && |hosts| <= |hosts'|
    requires forall k :: 0 <= k < |hosts| ==> hosts'[k].id == hosts[k].id
    ensures FindHost(hosts', hostId) == FindHost(hosts, hostId)
  {
    if hosts[0].id != hostId {
      forall k | 0 <= k < |hosts[1..]|
        ensures hosts'[1..][k].id == hosts[1..][k].id
      {
        assert hosts'[k + 1].id == hosts[k + 1].id;
      }
      FindStable(hosts[1..], hosts'[1..], hostId);
    }
  }

  /** A host replaced by one with the same id. */
  lemma UpdateStep(hosts: seq<Host>, j: nat, h: Host, hostId: string, componentId: string)
    requires j < |hosts| && h.id == hosts[j].id && FindHost(hosts, hostId).Some?
    ensures FindHost(hosts[j := h], hostId) == FindHost(hosts, hostId)
    ensures Lookup(hosts[j := h], hostId, componentId) ==
            if FindHost(hosts, hostId) == Some(j) then ComponentOf(h, componentId)
            else Lookup(hosts, hostId, componentId)
  {
    FindStable(hosts, hosts[j := h], hostId);
  }

  lemma RestartStep(hosts: seq<Host>, op: Op, hostId: string, componentId: string)
    requires FindHost(hosts, hostId).Some? && op.Restart?
    ensures FindHost(Apply(hosts, op), hostId) == FindHost(hosts, hostId)
    ensures Lookup(Apply(hosts, op), hostId, componentId) ==
            EntryAfter(Lookup(hosts, hostId, componentId), op, hostId, componentId)
  {
    var j := FindHost(hosts, op.hostId);
    if j.Some? && op.componentId in hosts[j.value].components {
      UpdateStep(hosts, j.value, Apply(hosts, op)[j.value], hostId, componentId);
    }
  }

  lemma ObserveStep(hosts: seq<Host>, op: Op, hostId: string, componentId: string)
    requires FindHost(hosts, hostId).Some? && op.Observe?
    ensures FindHost(Apply(hosts, op), hostId) == FindHost(hosts, hostId)
    ensures Lookup(Apply(hosts, op), hostId, componentId) ==
            EntryAfter(Lookup(hosts, hostId, componentId), op, hostId, componentId)
  {
    var j := FindHost(hosts, op.hostId);
    if j.Some? {
      UpdateStep(hosts, j.value, ObservedHost(hosts[j.value], op.seen, op.heartbeatAt, op.now), hostId, componentId);
    }
  }

  lemma {:induction false} RemovedKeepsOthers(hosts: seq<Host>, gone: string, hostId: string, componentId: string)
    requires gone != hostId
    ensures Lookup(Removed(hosts, gone), hostId, componentId) == Lookup(hosts, hostId, componentId)
    ensures FindHost(Removed(hosts, gone), hostId).Some? <==> FindHost(hosts, hostId).Some?
  {
    if hosts != [] {
      var rest := Removed(hosts[1..], gone);
      RemovedKeepsOthers(hosts[1..], gone, hostId, componentId);
      if hosts[0].id == gone {
        assert Removed(hosts, gone) == rest;
        LookupTail(hosts, hostId, componentId);
      } else {
        assert Removed(hosts, gone) == [hosts[0]] + rest && ([hosts[0]] + rest)[1..] == rest;
        if hosts[0].id != hostId {
          LookupTail(hosts, hostId, componentId);
          LookupTail([hosts[0]] + rest, hostId, componentId);
        }
      }
    }
  }

  lemma LookupTail(hosts: seq<Host>, hostId: string, componentId: string)
    requires hosts != [] && hosts[0].id != hostId
    ensures Lookup(hosts, hostId, componentId) == Lookup(hosts[1..], hostId, componentId)
    ensures FindHost(hosts, hostId).Some? <==> FindHost(hosts[1..], hostId).Some?
  {
  }

  /** Operations on other hosts and components leave the entry alone. */
  lemma EntryStep(hosts: seq<Host>, op: Op, hostId: string, componentId: string)
    requires FindHost(hosts, hostId).Some? && op != Remove(hostId)
    ensures FindHost(Apply(hosts, op), hostId).Some?
    ensures Lookup(Apply(hosts, op), hostId, componentId) ==
            EntryAfter(Lookup(hosts, hostId, componentId), op, hostId, componentId)
  {
    match op {
      case Remove(gone) => RemovedKeepsOthers(hosts, gone, hostId, componentId);
      case Register(_, _) => FindStable(hosts, Apply(hosts, op), hostId);
      case Restart(_, _) => RestartStep(hosts, op, hostId, componentId);
      case Observe(_, _, _, _) => ObserveStep(hosts, op, hostId, componentId);
    }
  }

  /** While its host is registered, a component's entry depends on its own observations and
      restarts only. */
  lemma {:induction false} LookupRun(hosts: seq<Host>, ops: seq<Op>, hostId: string, componentId: string)
    requires FindHost(hosts, hostId).Some? && NeverRemoves(ops, hostId)
    ensures FindHost(Run(hosts, ops), hostId).Some?
    ensures Lookup(Run(hosts, ops), hostId, componentId) ==
            EntryRun(Lookup(hosts, hostId, componentId), ops, hostId, componentId)
    decreases |ops|
  {
    if ops != [] {
      LookupRun(hosts, ops[..|ops| - 1], hostId, componentId);
      EntryStep(Run(hosts, ops[..|ops| - 1]), ops[|ops| - 1], hostId, componentId);
    }
  }

  // ---------------------------------------------------------------------------
  // Failure counters
  // ---------------------------------------------------------------------------

  /** The observations of one component that the run contains. */
  function HistoryOf(ops: seq<Op>, hostId: string, componentId: string): seq<Component> {
    if ops == [] then []
    else
      var op := ops[|ops| - 1];
      HistoryOf(ops[..|ops| - 1], hostId, componentId)
      + if op.Observe? && op.hostId == hostId && op.seen.id == componentId then [op.seen] else []
  }

  /** How many bad observations end the history. */
  function TrailingBad(history: seq<Component>): (n: nat)
    ensures n <= |history|
    ensures forall i :: |history| - n <= i < |history| ==> IsBad(history[i].state)
    ensures n < |history| ==> !IsBad(history[|history| - n - 1].state)
  {
    if history == [] || !IsBad(history[|history| - 1].state) then 0
    else 1 + TrailingBad(history[..|history| - 1])
  }

  /** What the counter was before the trailing bad observations: zero after a healthy one, the
      reported count after an unknown one, and the first report's count if all were bad. */
  function BaseCount(history: seq<Component>): Counter
    requires history != []
  {
    var n := TrailingBad(history);
    if n == |history| then history[0].failureCount
    else if history[|history| - n - 1].state.Healthy? then 0
    else history[|history| - n - 1].failureCount
  }

  /** One more observation, in terms of the closed form. */
  lemma ClosedFormStep(history: seq<Component>, seen: Component)
    ensures TrailingBad(history + [seen]) == if IsBad(seen.state) then 1 + TrailingBad(history) else 0
    ensures BaseCount(history + [seen]) ==
            if !IsBad(seen.state) then (if seen.state.Healthy? then 0 else seen.failureCount)
            else if history == [] then seen.failureCount
            else BaseCount(history)
  {
    var longer := history + [seen];
    assert longer[..|history|] == history;
  }

  /** The failure counter of a component, in closed form: the bad observations since the last healthy
      or unknown one, on top of what that one left, saturating. */
  ghost predicate CountsHistory(entry: Option<Component>, history: seq<Component>) {
    if history == [] then entry.None?
    else
      && entry.Some?
      && entry.value.failureCount == Min(U64_MAX, BaseCount(history) + TrailingBad(history))
      && entry.value.state == history[|history| - 1].state
  }

  lemma CountsOneMore(entry: Option<Component>, history: seq<Component>, seen: Component, now: int)
    requires CountsHistory(entry, history)
    ensures CountsHistory(Some(Observed(entry, seen, now)), history + [seen])
  {
    ClosedFormStep(history, seen);
  }

  lemma {:induction false} EntryCountsHistory(ops: seq<Op>, hostId: string, componentId: string)
    ensures CountsHistory(EntryRun(None, ops, hostId, componentId), HistoryOf(ops, hostId, componentId))
  {
    if ops != [] {
      var op, rest := ops[|ops| - 1], ops[..|ops| - 1];
      var entry, h := EntryRun(None, rest, hostId, componentId), HistoryOf(rest, hostId, componentId);
      EntryCountsHistory(rest, hostId, componentId);
      if op.Observe? && op.hostId == hostId && op.seen.id == componentId {
        CountsOneMore(entry, h, op.seen, op.now);
      } else {
        assert HistoryOf(ops, hostId, componentId) == h;
      }
    }
  }

  /** The counter the registry holds for a component first seen in the run is that of its history. */
  lemma FailureCountIsHistory(hosts: seq<Host>, ops: seq<Op>, hostId: string, componentId: string)
    requires FindHost(hosts, hostId).Some? && NeverRemoves(ops, hostId)
    requires Lookup(hosts, hostId, componentId).None?
    ensures CountsHistory(Lookup(Run(hosts, ops), hostId, componentId), HistoryOf(ops, hostId, componentId))
  {
    LookupRun(hosts, ops, hostId, componentId);
    EntryCountsHistory(ops, hostId, componentId);
  }

  // ---------------------------------------------------------------------------
  // Escalation
  // ---------------------------------------------------------------------------

  ghost predicate AllBad(history: seq<Component>) {
    forall i :: 0 <= i < |history| ==> IsBad(history[i].state)
  }

  /** Bad observations add up, and restarts are never taken back. */
  lemma {:induction false} BadObservationsAddUp(c: Component, ops: seq<Op>, hostId: string, componentId: string)
    requires AllBad(HistoryOf(ops, hostId, componentId))
    ensures var e := EntryRun(Some(c), ops, hostId, componentId);
            && e.Some?
            && e.value.failureCount == Min(U64_MAX, c.failureCount + |HistoryOf(ops, hostId, componentId)|)
            && c.restartAttempts <= e.value.restartAttempts
  {
    if ops != [] {
      var op, rest := ops[|ops| - 1], ops[..|ops| - 1];
      var h, h' := HistoryOf(rest, hostId, componentId), HistoryOf(ops, hostId, componentId);
      assert h == h'[..|h|];
      BadObservationsAddUp(c, rest, hostId, componentId);
      if op.Observe? && op.hostId == hostId && op.seen.id == componentId {
        assert h'[|h|] == op.seen;
      }
    }
  }

  predicate Exhausted(c: Component) {
    c.restartAttempts >= 3 || c.failureCount >= 5
  }

  /** Another reachable host of the cluster that the host `hostId`, taken as its first entry, is in. */
  ghost predicate CanTakeOver(hosts: seq<Host>, hostId: string, t: nat) {
    && t < |hosts| && hosts[t].id != hostId && hosts[t].isReachable
    && exists i :: 0 <= i < |hosts| && hosts[i].id == hostId && hosts[t].clusterId == hosts[i].clusterId &&
                   forall k :: 0 <= k < i ==> hosts[k].id != hostId
  }

  lemma TakeOverMeans(hosts: seq<Host>, hostId: string, t: nat)
    requires FindHost(hosts, hostId).Some? && t < |hosts|
    ensures CanTakeOver(hosts, hostId, t) <==>
            IsFailoverTarget(hosts[t], hostId, hosts[FindHost(hosts, hostId).value].clusterId)
  {
    FindHostIsFirst(hosts, hostId);
  }

  /** The decision for every state of a component. Nothing is decided for an unknown host or component,
      within LocalOnly, or for a healthy one. A failed component fails over exactly when another
      reachable host shares its cluster; otherwise it is isolated from three failures on. */
  lemma DecisionExactly(hosts: seq<Host>, scope: Scope, hostId: string, componentId: string)
    ensures var d, entry := DecideHeal(hosts, scope, hostId, componentId), Lookup(hosts, hostId, componentId);
            if entry == None || scope == LocalOnly then d == None
            else
              var c := entry.value;
              match c.state
              case Healthy => d == None
              case Unknown => d == if c.failureCount >= 1 then Some(Escalate) else None
              case Degraded =>
                d == if c.restartAttempts >= 3 || c.failureCount >= 5 then Some(Escalate) else Some(RestartLocally)
              case Failed =>
                if exists t: nat :: CanTakeOver(hosts, hostId, t) then d.Some? && d.value.FailoverTo?
                else d == if c.failureCount >= 3 then Some(Isolate) else Some(RestartLocally)
  {
    var i := FindHost(hosts, hostId);
    if i.Some? {
      var target := FailoverTarget(hosts, hostId, hosts[i.value].clusterId);
      if target.Some? {
        TakeOverMeans(hosts, hostId, target.value);
      }
      if t: nat :| CanTakeOver(hosts, hostId, t) {
        TakeOverMeans(hosts, hostId, t);
      }
    }
  }

  predicate IsDegraded(entry: Option<Component>) {
    entry.Some? && entry.value.state.Degraded?
  }

  /** For a degraded component, escalation means exhaustion. */
  lemma DegradedEscalates(hosts: seq<Host>, scope: Scope, hostId: string, componentId: string)
    requires !scope.LocalOnly? && IsDegraded(Lookup(hosts, hostId, componentId))
    ensures DecideHeal(hosts, scope, hostId, componentId) ==
            Some(if Exhausted(Lookup(hosts, hostId, componentId).value) then Escalate else RestartLocally)
  {
  }

  /** Outside LocalOnly, a degraded component that escalated escalates again whenever it is found
      degraded, until a healthy or unknown observation of it or the removal of its host. */
  lemma EscalationSticks(hosts: seq<Host>, ops: seq<Op>, scope: Scope, hostId: string, componentId: string)
    requires !scope.LocalOnly? && NeverRemoves(ops, hostId) && AllBad(HistoryOf(ops, hostId, componentId))
    requires IsDegraded(Lookup(hosts, hostId, componentId))
    requires DecideHeal(hosts, scope, hostId, componentId) == Some(Escalate)
    requires IsDegraded(Lookup(Run(hosts, ops), hostId, componentId))
    ensures DecideHeal(Run(hosts, ops), scope, hostId, componentId) == Some(Escalate)
  {
    DegradedEscalates(hosts, scope, hostId, componentId);
    CountAfter(hosts, ops, hostId, componentId);
    DegradedEscalates(Run(hosts, ops), scope, hostId, componentId);
  }

  /** Bad observations and restarts, as the registry counts them. */
  lemma CountAfter(hosts: seq<Host>, ops: seq<Op>, hostId: string, componentId: string)
    requires NeverRemoves(ops, hostId) && AllBad(HistoryOf(ops, hostId, componentId))
    requires Lookup(hosts, hostId, componentId).Some?
    ensures Lookup(Run(hosts, ops), hostId, componentId).Some?
    ensures var c, c' := Lookup(hosts, hostId, componentId).value, Lookup(Run(hosts, ops), hostId, componentId).value;
            && c'.failureCount == Min(U64_MAX, c.failureCount + |HistoryOf(ops, hostId, componentId)|)
            && c.restartAttempts <= c'.restartAttempts
  {
    LookupRun(hosts, ops, hostId, componentId);
    BadObservationsAddUp(Lookup(hosts, hostId, componentId).value, ops, hostId, componentId);
  }

  /** From a counter of zero, the decision for a component found degraded depends on the number of
      bad observations alone. */
  lemma EscalatesFromZero(hosts: seq<Host>, ops: seq<Op>, scope: Scope, hostId: string, componentId: string)
    requires !scope.LocalOnly? && NeverRemoves(ops, hostId) && AllBad(HistoryOf(ops, hostId, componentId))
    requires var entry := Lookup(hosts, hostId, componentId); entry.Some? && entry.value.failureCount == 0
    requires var entry := Lookup(Run(hosts, ops), hostId, componentId);
             IsDegraded(entry) && entry.value.restartAttempts < 3
    ensures DecideHeal(Run(hosts, ops), scope, hostId, componentId) ==
            Some(if |HistoryOf(ops, hostId, componentId)| >= 5 then Escalate else RestartLocally)
  {
    CountAfter(hosts, ops, hostId, componentId);
    DegradedEscalates(Run(hosts, ops), scope, hostId, componentId);
  }

  /** After a healthy observation, while a component has fewer than three restarts, it escalates from
      the fifth bad observation on and not before. */
  lemma EscalatesAtTheFifth(hosts: seq<Host>, hosts': seq<Host>, seen: Component, t1: int, t2: int, ops: seq<Op>,
                            scope: Scope, hostId: string)
    requires FindHost(hosts, hostId).Some? && seen.state.Healthy?
    requires hosts' == Apply(hosts, Observe(hostId, seen, t1, t2))
    requires !scope.LocalOnly? && NeverRemoves(ops, hostId) && AllBad(HistoryOf(ops, hostId, seen.id))
    requires var entry := Lookup(Run(hosts', ops), hostId, seen.id);
             IsDegraded(entry) && entry.value.restartAttempts < 3
    ensures DecideHeal(Run(hosts', ops), scope, hostId, seen.id) ==
            Some(if |HistoryOf(ops, hostId, seen.id)| >= 5 then Escalate else RestartLocally)
  {
    ObserveStep(hosts, Observe(hostId, seen, t1, t2), hostId, seen.id);
    EscalatesFromZero(hosts', ops, scope, hostId, seen.id);
  }

  /** After a healthy observation, and with no other host to fail over to, a component that is found
      failed is isolated from its third bad observation on and restarted before that. */
  lemma IsolatesAtTheThird(hosts: seq<Host>, hosts': seq<Host>, seen: Component, t1: int, t2: int, ops: seq<Op>,
                           scope: Scope, hostId: string)
    requires FindHost(hosts, hostId).Some? && seen.state.Healthy?
    requires hosts' == Apply(hosts, Observe(hostId, seen, t1, t2))
    requires !scope.LocalOnly? && NeverRemoves(ops, hostId) && AllBad(HistoryOf(ops, hostId, seen.id))
    requires var entry := Lookup(Run(hosts', ops), hostId, seen.id); entry.Some? && entry.value.state.Failed?
    requires forall t: nat :: !CanTakeOver(Run(hosts', ops), hostId, t)
    ensures DecideHeal(Run(hosts', ops), scope, hostId, seen.id) ==
            Some(if |HistoryOf(ops, hostId, seen.id)| >= 3 then Isolate else RestartLocally)
  {
    ObserveStep(hosts, Observe(hostId, seen, t1, t2), hostId, seen.id);
    CountAfter(hosts', ops, hostId, seen.id);
    DecisionExactly(Run(hosts', ops), scope, hostId, seen.id);
  }

  // ---------------------------------------------------------------------------
  // Decisions and fleet health
  // ---------------------------------------------------------------------------

  /** A restart and an escalation are always carried out, a failover and an isolation outside LocalOnly
      only. */
  lemma ExecutesExactly(scope: Scope, d: Decision)
    ensures ExecuteHeal(scope, d) ==
            if scope != LocalOnly || d == RestartLocally || d == Escalate then Ok(()) else Err(ScopeDenied(d))
  {
  }

  /** Removing acts on each host by its id and on each part of the registry by itself: so it keeps the
      order. */
  lemma RemovedInOrder(a: seq<Host>, b: seq<Host>, hostId: string)
    ensures Removed(a + b, hostId) == Removed(a, hostId) + Removed(b, hostId)
    ensures |a| == 1 ==> Removed(a, hostId) == if a[0].id == hostId then [] else a
  {
    FilterInOrder(a, b, OtherThan(hostId));
    if |a| == 1 {
      assert a == [a[0]];
      FilterOne(a[0], OtherThan(hostId));
    }
  }

  /** The report of the fleet, for every registry. */
  lemma FleetHealthExactly(hosts: seq<Host>)
    ensures var some := exists i :: 0 <= i < |hosts| && hosts[i].isReachable;
            var all := forall i :: 0 <= i < |hosts| ==> hosts[i].isReachable;
            var failed := exists i :: 0 <= i < |hosts| && HasComponentIn(hosts[i], Failed);
            var degraded := exists i :: 0 <= i < |hosts| && HasComponentIn(hosts[i], Degraded);
            && (FleetHealth(hosts) == "Unknown" <==> hosts == [])
            && (FleetHealth(hosts) == "QuorumLost" <==> hosts != [] && !some)
            && (FleetHealth(hosts) == "Critical" <==> some && failed)
            && (FleetHealth(hosts) == "Degraded" <==> some && !failed && (degraded || !all))
            && (FleetHealth(hosts) == "Healthy" <==> some && !failed && !degraded && all)
  {
    assert AnyHostWith(hosts, Failed) <==> exists i :: 0 <= i < |hosts| && HasComponentIn(hosts[i], Failed);
    assert AnyHostWith(hosts, Degraded) <==> exists i :: 0 <= i < |hosts| && HasComponentIn(hosts[i], Degraded);
    assert hosts != [] ==> hosts[0].isReachable || !hosts[0].isReachable;
  }

  /** Every decision can be carried out in the scope it was taken in. */
  lemma DecisionsAreExecutable(hosts: seq<Host>, scope: Scope, hostId: string, componentId: string)
    ensures var d := DecideHeal(hosts, scope, hostId, componentId);
            d.Some? ==> ExecuteHeal(scope, d.value).Ok?
  {
  }

  /** A failover goes to the first other reachable host of the same cluster, in registry order. */
  lemma FailoverGoesToFirst(hosts: seq<Host>, scope: Scope, hostId: string, componentId: string, target: string)
    requires DecideHeal(hosts, scope, hostId, componentId) == Some(FailoverTo(target))
    ensures exists i, t :: && 0 <= i < |hosts| && hosts[i].id == hostId
                           && 0 <= t < |hosts| && hosts[t].id == target != hostId
                           && hosts[t].isReachable && hosts[t].clusterId == hosts[i].clusterId
                           && forall k :: 0 <= k < t ==> hosts[k].id == hostId || !hosts[k].isReachable ||
                                                         hosts[k].clusterId != hosts[i].clusterId
  {
    var i := FindHost(hosts, hostId).value;
    var t := FailoverTarget(hosts, hostId, hosts[i].clusterId).value;
    forall k | 0 <= k < t
      ensures hosts[k].id == hostId || !hosts[k].isReachable || hosts[k].clusterId != hosts[i].clusterId
    {
      assert !IsFailoverTarget(hosts[k], hostId, hosts[i].clusterId);
    }
  }

  lemma {:induction false} AilingIdsMembers(hosts: seq<Host>, id: string)
    ensures id in AilingIds(hosts) <==> exists i :: 0 <= i < |hosts| && Ailing(hosts[i]) && hosts[i].id == id
  {
    if hosts != [] {
      AilingIdsMembers(hosts[1..], id);
      assert forall i :: 0 < i < |hosts| ==> hosts[i] == hosts[1..][i - 1];
    }
  }

  lemma {:induction false} AilingIdsUnique(hosts: seq<Host>)
    requires UniqueIds(hosts)
    ensures NoRepeats(AilingIds(hosts))
  {
    if hosts != [] {
      AilingIdsUnique(hosts[1..]);
      AilingIdsMembers(hosts[1..], hosts[0].id);
    }
  }

  lemma {:induction false} SomeAiling(hosts: seq<Host>)
    ensures AilingIds(hosts) != [] <==> exists i :: 0 <= i < |hosts| && Ailing(hosts[i])
  {
    if hosts != [] {
      SomeAiling(hosts[1..]);
      assert forall i :: 0 < i < |hosts| ==> hosts[i] == hosts[1..][i - 1];
    }
  }

  lemma {:induction false} TwoAiling(hosts: seq<Host>)
    ensures |AilingIds(hosts)| >= 2 <==> exists i, j :: 0 <= i < j < |hosts| && Ailing(hosts[i]) && Ailing(hosts[j])
  {
    if hosts != [] {
      TwoAiling(hosts[1..]);
      SomeAiling(hosts[1..]);
      assert forall i :: 0 < i < |hosts| ==> hosts[i] == hosts[1..][i - 1];
    }
  }

  function IsAiling(): Host -> bool {
    (h: Host) => HasComponentIn(h, Failed) || HasComponentIn(h, Degraded)
  }

  /** The ailing hosts are named each by its id, in registry order. */
  lemma {:induction false} AilingIdsInOrder(hosts: seq<Host>)
    ensures |AilingIds(hosts)| == |Filter(hosts, IsAiling())|
    ensures forall i :: 0 <= i < |AilingIds(hosts)| ==> AilingIds(hosts)[i] == Filter(hosts, IsAiling())[i].id
  {
    if hosts != [] {
      AilingIdsInOrder(hosts[1..]);
    }
  }

  /** A cascade is found exactly when two hosts are ailing, and names all that are. */
  lemma CascadeExactly(hosts: seq<Host>)
    ensures CascadingFailureCheck(hosts) ==
            if exists i, j :: 0 <= i < j < |hosts| && Ailing(hosts[i]) && Ailing(hosts[j]) then AilingIds(hosts) else []
  {
    TwoAiling(hosts);
  }

  /** A cascade names at least two hosts, each once and exactly the ailing ones, and the fleet is
      then not reported healthy. */
  lemma CascadeExcludesHealthy(hosts: seq<Host>)
    requires UniqueIds(hosts) && CascadingFailureCheck(hosts) != []
    ensures var ids := CascadingFailureCheck(hosts);
            && |ids| >= 2 && NoRepeats(ids)
            && forall id :: id in ids <==> exists i :: 0 <= i < |hosts| && Ailing(hosts[i]) && hosts[i].id == id
    ensures FleetHealth(hosts) in {"QuorumLost", "Critical", "Degraded"}
  {
    AilingIdsUnique(hosts);
    forall id {
      AilingIdsMembers(hosts, id);
    }
    SomeAiling(hosts);
    var i :| 0 <= i < |hosts| && Ailing(hosts[i]);
    assert AnyHostWith(hosts, Failed) || AnyHostWith(hosts, Degraded);
  }

  /** The fleet is reported healthy exactly when there are hosts, all reachable, none ailing. */
  lemma HealthyMeans(hosts: seq<Host>)
    ensures FleetHealth(hosts) == "Healthy" <==>
            hosts != [] && forall i :: 0 <= i < |hosts| ==> hosts[i].isReachable && !Ailing(hosts[i])
  {
    if hosts != [] {
      assert AnyHostWith(hosts, Failed) || AnyHostWith(hosts, Degraded) <==>
             exists i :: 0 <= i < |hosts| && Ailing(hosts[i]);
      assert hosts[0].isReachable || !hosts[0].isReachable;
    }
  }
}
