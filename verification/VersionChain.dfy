/** The ordered version history of a package: appending, the active head, and rolling back. */
module VersionChain {
  import opened Wrappers

  datatype PackageState = Active | Inactive | RollbackRequired

  datatype Entry = Entry(
    packageId: string,
    version: string,
    registeredAt: int,
    parentVersion: Option<string>,
    state: PackageState)

  datatype ChainError =
    | ParentMismatch(parent: Option<string>, head: string)
    | TargetNotFound(version: string)

  // ---------------------------------------------------------------------------
  // Searching the entries
  // ---------------------------------------------------------------------------

  /** The first entry with the version. */
  function Position(es: seq<Entry>, version: string): (r: Option<nat>)
    ensures r.None? <==> forall i :: 0 <= i < |es| ==> es[i].version != version
    ensures r.Some? ==> r.value < |es| && es[r.value].version == version
    ensures r.Some? ==> forall i :: 0 <= i < r.value ==> es[i].version != version
  {
    if es == [] then None
    else if es[0].version == version then Some(0)
    else
      var rest := Position(es[1..], version);
      assert forall i :: 0 < i < |es| ==> es[i] == es[1..][i - 1];
      if rest.Some? then Some(rest.value + 1) else None
  }

  /** The last entry that is active. */
  function LastActive(es: seq<Entry>): (r: Option<nat>)
    ensures r.None? <==> forall i :: 0 <= i < |es| ==> !es[i].state.Active?
    ensures r.Some? ==> r.value < |es| && es[r.value].state.Active?
    ensures r.Some? ==> forall i :: r.value < i < |es| ==> !es[i].state.Active?
  {
    if es == [] then None
    else if es[|es| - 1].state.Active? then Some(|es| - 1)
    else LastActive(es[..|es| - 1])
  }

  // ---------------------------------------------------------------------------
  // The operations on values
  // ---------------------------------------------------------------------------

  /** May the entry follow the last one? */
  predicate Follows(es: seq<Entry>, e: Entry) {
    es == [] || e.parentVersion == Some(es[|es| - 1].version)
  }

  function Appended(es: seq<Entry>, e: Entry): seq<Entry> {
    if Follows(es, e) then es + [e] else es
  }

  /** The active head retired, if there is one. */
  function Retired(es: seq<Entry>): seq<Entry> {
    match LastActive(es)
    case None => es
    case Some(i) => es[i := es[i].(state := RollbackRequired)]
  }

  function RolledBack(es: seq<Entry>, version: string): seq<Entry> {
    match Position(es, version)
    case None => es
    case Some(t) => Retired(es)[t := Retired(es)[t].(state := Active)]
  }

  /** The entry is the first one with the version. */
  ghost predicate IsFirst(es: seq<Entry>, version: string, t: nat) {
    t < |es| && es[t].version == version && forall i :: 0 <= i < t ==> es[i].version != version
  }

  /** The entry is the last active one. */
  ghost predicate IsHead(es: seq<Entry>, i: nat) {
    i < |es| && es[i].state == Active && forall j :: i < j < |es| ==> es[j].state != Active
  }

  /** `es'` is `es` with the entry `t` active and the head, if it is another one, to be rolled back. */
  ghost predicate ReactivatedAt(es: seq<Entry>, t: nat, es': seq<Entry>) {
    && |es'| == |es|
    && forall i :: 0 <= i < |es| ==>
         es'[i] == es[i].(state := if i == t then Active else if IsHead(es, i) then RollbackRequired else es[i].state)
  }

  lemma RollbackWritten(es: seq<Entry>, version: string, t: nat)
    requires Position(es, version) == Some(t)
    ensures IsFirst(es, version, t) && ReactivatedAt(es, t, RolledBack(es, version))
  {
    forall i: nat | i < |es|
      ensures IsHead(es, i) <==> LastActive(es) == Some(i)
    {
    }
  }

  class Chain {
    var entries: seq<Entry>

    constructor ()
      ensures entries == []
    {
      entries := [];
    }

    method Append(entry: Entry) returns (r: Result<(), ChainError>)
      modifies this
      ensures r.Ok? <==> old(entries) == [] ||
                         entry.parentVersion == Some(old(entries)[|old(entries)| - 1].version)
      ensures entries == Appended(old(entries), entry)
      ensures entries == if r.Ok? then old(entries) + [entry] else old(entries)
      ensures r.Err? ==> old(entries) != [] &&
                         r.error == ParentMismatch(entry.parentVersion, old(entries)[|old(entries)| - 1].version)
    {
      if entries != [] {
        var head := entries[|entries| - 1];
        if entry.parentVersion != Some(head.version) {
          return Err(ParentMismatch(entry.parentVersion, head.version));
        }
      }
      entries := entries + [entry];
      r := Ok(());
    }

    method CurrentActive() returns (r: Option<Entry>)
      ensures r.None? <==> forall i :: 0 <= i < |entries| ==> !entries[i].state.Active?
      ensures r.Some? ==> exists i :: 0 <= i < |entries| && entries[i] == r.value && entries[i].state.Active? &&
                                      forall j :: i < j < |entries| ==> !entries[j].state.Active?
    {
      var i := LastActive(entries);
      r := if i.Some? then Some(entries[i.value]) else None;
    }

    method RollbackTo(version: string) returns (r: Result<(), ChainError>)
      modifies this
      ensures r.Ok? <==> exists i :: 0 <= i < |old(entries)| && old(entries)[i].version == version
      ensures entries == RolledBack(old(entries), version)
      ensures r.Ok? ==> exists t: nat :: IsFirst(old(entries), version, t) && ReactivatedAt(old(entries), t, entries)
      ensures r.Err? ==> entries == old(entries) && r.error == TargetNotFound(version)
    {
      ghost var was := entries;
      var target := Position(entries, version);
      if target.None? {
        return Err(TargetNotFound(version));
      }
      var active := LastActive(entries);
      if active.Some? {
        entries := entries[active.value := entries[active.value].(state := RollbackRequired)];
      }
      entries := entries[target.value := entries[target.value].(state := Active)];
      RollbackWritten(was, version, target.value);
      r := Ok(());
    }
  }

  // ---------------------------------------------------------------------------
  // Runs
  // ---------------------------------------------------------------------------

  datatype Op = AppendOp(entry: Entry) | RollbackOp(version: string)

  function Apply(es: seq<Entry>, op: Op): seq<Entry> {
    match op
    case AppendOp(e) => Appended(es, e)
    case RollbackOp(v) => RolledBack(es, v)
  }

  function Run(es: seq<Entry>, ops: seq<Op>): seq<Entry>
    decreases |ops|
  {
    if ops == [] then es else Run(Apply(es, ops[0]), ops[1..])
  }

  /** Every entry but the first names its predecessor's version as parent. */
  ghost predicate Linked(es: seq<Entry>) {
    forall i :: 0 < i < |es| ==> es[i].parentVersion == Some(es[i - 1].version)
  }

  /** `es'` extends `es`, the old entries differing in their state at most. */
  ghost predicate Extends(es: seq<Entry>, es': seq<Entry>) {
    |es| <= |es'| && forall i :: 0 <= i < |es| ==> es'[i] == es[i].(state := es'[i].state)
  }

  lemma RollbackExtends(es: seq<Entry>, version: string)
    ensures |RolledBack(es, version)| == |es| && Extends(es, RolledBack(es, version))
  {
  }

  lemma ExtensionIsLinked(es: seq<Entry>, es': seq<Entry>)
    requires Linked(es) && Extends(es, es') && |es'| == |es|
    ensures Linked(es')
  {
    forall i | 0 < i < |es'|
      ensures es'[i].parentVersion == Some(es'[i - 1].version)
    {
      assert es'[i] == es[i].(state := es'[i].state) && es'[i - 1] == es[i - 1].(state := es'[i - 1].state);
    }
  }

  lemma ApplyKeepsChain(es: seq<Entry>, op: Op)
    requires Linked(es)
    ensures Linked(Apply(es, op)) && Extends(es, Apply(es, op))
  {
    if op.RollbackOp? {
      RollbackExtends(es, op.version);
      ExtensionIsLinked(es, RolledBack(es, op.version));
    }
  }

  /** The chain is linked after any run, and nothing but states is ever rewritten. */
  lemma {:induction false} RunKeepsChain(es: seq<Entry>, ops: seq<Op>)
    requires Linked(es)
    ensures Linked(Run(es, ops)) && Extends(es, Run(es, ops))
    decreases |ops|
  {
    if ops != [] {
      var next := Apply(es, ops[0]);
      ApplyKeepsChain(es, ops[0]);
      RunKeepsChain(next, ops[1..]);
    }
  }

  // ---------------------------------------------------------------------------
  // Rolling back
  // ---------------------------------------------------------------------------

  ghost predicate IsActive(es: seq<Entry>, i: nat) {
    i < |es| && es[i].state.Active?
  }

  ghost predicate OnlyActive(es: seq<Entry>, t: nat) {
    IsActive(es, t) && forall i: nat :: IsActive(es, i) ==> i == t
  }

  ghost predicate AtMostOneActive(es: seq<Entry>) {
    forall i: nat, j: nat :: IsActive(es, i) && IsActive(es, j) ==> i == j
  }

  /** A rollback touches the states of the target and of the retired head, and no others. */
  lemma RollbackStates(es: seq<Entry>, version: string, t: nat, i: nat)
    requires Position(es, version) == Some(t) && i < |es|
    ensures |RolledBack(es, version)| == |es|
    ensures RolledBack(es, version)[i] == es[i].(
              state := if i == t then Active
                       else if LastActive(es) == Some(i) then RollbackRequired
                       else es[i].state)
  {
  }

  /** The target is the one active entry afterwards exactly when every active entry before was
      the head or the target itself. */
  lemma RollbackLeavesOneActive(es: seq<Entry>, version: string, t: nat)
    requires Position(es, version) == Some(t)
    ensures OnlyActive(RolledBack(es, version), t) <==>
            forall i: nat :: IsActive(es, i) ==> i == t || LastActive(es) == Some(i)
  {
    var es' := RolledBack(es, version);
    forall i: nat | i < |es|
      ensures IsActive(es', i) <==> i == t || (IsActive(es, i) && LastActive(es) != Some(i))
    {
      RollbackStates(es, version, t, i);
    }
  }

  /** The head afterwards is the target exactly when no older active entry lies behind it. */
  lemma RollbackHead(es: seq<Entry>, version: string, t: nat)
    requires Position(es, version) == Some(t)
    ensures LastActive(RolledBack(es, version)) == Some(t) <==>
            forall i: nat :: IsActive(es, i) && i > t ==> LastActive(es) == Some(i)
  {
    var es' := RolledBack(es, version);
    forall i: nat | i < |es|
      ensures IsActive(es', i) <==> i == t || (IsActive(es, i) && LastActive(es) != Some(i))
    {
      RollbackStates(es, version, t, i);
    }
    assert IsActive(es', t);
  }

  /** With at most one active entry, a rollback makes the first entry of the requested version
      the only active one and the head. */
  lemma RollbackActivates(es: seq<Entry>, version: string, t: nat)
    requires AtMostOneActive(es) && Position(es, version) == Some(t)
    ensures OnlyActive(RolledBack(es, version), t) && LastActive(RolledBack(es, version)) == Some(t)
  {
    forall i: nat | IsActive(es, i)
      ensures LastActive(es) == Some(i)
    {
      assert IsActive(es, LastActive(es).value);
    }
    RollbackLeavesOneActive(es, version, t);
    RollbackHead(es, version, t);
  }

  /** An append keeps at most one active entry exactly when it is refused, adds an entry that is
      not active, or finds none active. */
  lemma AppendKeepsOneActive(es: seq<Entry>, e: Entry)
    requires AtMostOneActive(es)
    ensures AtMostOneActive(Appended(es, e)) <==> !Follows(es, e) || !e.state.Active? || LastActive(es).None?
  {
    var es' := Appended(es, e);
    if Follows(es, e) {
      assert forall i: nat :: IsActive(es', i) <==> IsActive(es, i) || (i == |es| && e.state.Active?);
      if e.state.Active? {
        assert IsActive(es', |es|);
        if LastActive(es).Some? {
          assert IsActive(es', LastActive(es).value);
        }
      }
    }
  }

  // ---------------------------------------------------------------------------
  // One active entry over runs
  // ---------------------------------------------------------------------------

  lemma {:induction false} RunAppend(es: seq<Entry>, ops: seq<Op>, op: Op)
    ensures Run(es, ops + [op]) == Apply(Run(es, ops), op)
    decreases |ops|
  {
    if ops == [] {
      assert ops + [op] == [op];
    } else {
      RunAppend(Apply(es, ops[0]), ops[1..], op);
      assert (ops + [op])[1..] == ops[1..] + [op];
    }
  }

  /** The chain just before the `k`-th operation of a run from the empty chain. */
  ghost function ChainAt(ops: seq<Op>, k: nat): seq<Entry>
    requires k <= |ops|
  {
    Run([], ops[..k])
  }

  lemma ChainAtNext(ops: seq<Op>, k: nat)
    requires k < |ops|
    ensures ChainAt(ops, k + 1) == Apply(ChainAt(ops, k), ops[k])
  {
    assert ops[..k + 1] == ops[..k] + [ops[k]];
    RunAppend([], ops[..k], ops[k]);
  }

  /** Does the operation append an active entry while another one is active? */
  ghost predicate AddsSecond(es: seq<Entry>, op: Op) {
    op.AppendOp? && Follows(es, op.entry) && op.entry.state.Active? && LastActive(es).Some?
  }

  lemma StepKeepsOneActive(es: seq<Entry>, op: Op)
    requires AtMostOneActive(es)
    ensures AtMostOneActive(Apply(es, op)) <==> !AddsSecond(es, op)
  {
    match op
    case AppendOp(e) => AppendKeepsOneActive(es, e);
    case RollbackOp(v) =>
      if Position(es, v).Some? {
        RollbackActivates(es, v, Position(es, v).value);
      }
  }

  lemma {:induction false} OneActiveUpTo(ops: seq<Op>, k: nat)
    requires k <= |ops| && forall i :: 0 <= i < k ==> !AddsSecond(ChainAt(ops, i), ops[i])
    ensures AtMostOneActive(ChainAt(ops, k))
  {
    if k > 0 {
      OneActiveUpTo(ops, k - 1);
      ChainAtNext(ops, k - 1);
      StepKeepsOneActive(ChainAt(ops, k - 1), ops[k - 1]);
    }
  }

  /** In a run from the empty chain at most one entry is active at every moment exactly when no
      accepted append adds an active entry while another one is active; rollbacks never matter. */
  lemma OneActiveThroughoutExactly(ops: seq<Op>)
    ensures (forall k :: 0 <= k <= |ops| ==> AtMostOneActive(ChainAt(ops, k))) <==>
            (forall k :: 0 <= k < |ops| ==> !AddsSecond(ChainAt(ops, k), ops[k]))
  {
    if forall k :: 0 <= k < |ops| ==> !AddsSecond(ChainAt(ops, k), ops[k]) {
      forall k | 0 <= k <= |ops|
        ensures AtMostOneActive(ChainAt(ops, k))
      {
        OneActiveUpTo(ops, k);
      }
    }
    if forall k :: 0 <= k <= |ops| ==> AtMostOneActive(ChainAt(ops, k)) {
      forall k | 0 <= k < |ops|
        ensures !AddsSecond(ChainAt(ops, k), ops[k])
      {
        ChainAtNext(ops, k);
        assert AtMostOneActive(ChainAt(ops, k)) && AtMostOneActive(ChainAt(ops, k + 1));
        StepKeepsOneActive(ChainAt(ops, k), ops[k]);
      }
    }
  }
}
