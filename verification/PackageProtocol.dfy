/**
 Interleavings of package registrations. A registration that passed its checks writes the package
 table, emits its evidence, and then writes the name index; the two tables have a lock each, and
 other registrations may come in between.
 */
module PackageProtocol {
  import opened Wrappers
  import opened PackageStore

  type OpId = nat

  /** The two tables, and the registrations that stored their package and have not yet ended. */
  datatype State = State(store: Store, inFlight: map<OpId, Attempt>)

  const INIT := State(EMPTY, map[])

  datatype Action = Insert(k: OpId, attempt: Attempt) | Index(k: OpId)

  function Busy(s: State, a: Action): nat {
    |s.inFlight| + if a.Insert? then 1 else 0
  }

  /** Does the action write the package table? */
  predicate WritesPackage(c: Crypto, trusted: set<Bytes>, s: State, a: Action) {
    a.Insert? && a.k !in s.inFlight && Objection(c, trusted, a.attempt.package).None?
  }

  /** Does it write the name index? */
  predicate WritesIndex(s: State, a: Action) {
    a.Index? && a.k in s.inFlight && !s.inFlight[a.k].emission.Rejected?
  }

  function Indexed(s: Store, p: AppPackage): Store {
    s.(nameIndex := s.nameIndex[p.name := VersionsOf(s, p.name) + [p.id]])
  }

  /** A registration that fails its checks does nothing; one whose emission is rejected ends
      without an index entry. */
  function Next(c: Crypto, trusted: set<Bytes>, s: State, a: Action): State {
    if WritesPackage(c, trusted, s, a) then
      var p := a.attempt.package;
      State(s.store.(packages := s.store.packages[p.id := p]), s.inFlight[a.k := a.attempt])
    else if WritesIndex(s, a) then
      State(Indexed(s.store, s.inFlight[a.k].package), s.inFlight - {a.k})
    else if a.Index? then s.(inFlight := s.inFlight - {a.k})
    else s
  }

  function Exec(c: Crypto, trusted: set<Bytes>, s: State, acts: seq<Action>): State
    decreases |acts|
  {
    if acts == [] then s else Exec(c, trusted, Next(c, trusted, s, acts[0]), acts[1..])
  }

  /** The registrations in flight under the name. */
  function On(inFlight: map<OpId, Attempt>, name: string): set<OpId> {
    set k | k in inFlight && inFlight[k].package.name == name
  }

  /** At most `n` registrations are in flight while the action happens, and at most `m` under the
      name that it inserts. */
  predicate Within(n: nat, m: nat, s: State, a: Action) {
    Busy(s, a) <= n && (a.Insert? ==> |On(s.inFlight, a.attempt.package.name)| + 1 <= m)
  }

  /** A run within these limits. */
  predicate IsRun(c: Crypto, trusted: set<Bytes>, n: nat, m: nat, s: State, acts: seq<Action>)
    decreases |acts|
  {
    acts == [] || (Within(n, m, s, acts[0]) && IsRun(c, trusted, n, m, Next(c, trusted, s, acts[0]), acts[1..]))
  }

  /** The registrations of a run in the order in which they stored their package. */
  function StoreOrder(c: Crypto, trusted: set<Bytes>, s: State, acts: seq<Action>): seq<Attempt>
    decreases |acts|
  {
    if acts == [] then []
    else
      (if WritesPackage(c, trusted, s, acts[0]) then [acts[0].attempt] else [])
      + StoreOrder(c, trusted, Next(c, trusted, s, acts[0]), acts[1..])
  }

  /** The registrations in the order in which they wrote the index. */
  function IndexOrder(c: Crypto, trusted: set<Bytes>, s: State, acts: seq<Action>): seq<Attempt>
    decreases |acts|
  {
    if acts == [] then []
    else
      (if WritesIndex(s, acts[0]) then [s.inFlight[acts[0].k]] else [])
      + IndexOrder(c, trusted, Next(c, trusted, s, acts[0]), acts[1..])
  }

  // ---------------------------------------------------------------------------
  // Each table is sequential in the order of its own writes
  // ---------------------------------------------------------------------------

  lemma {:induction false} PackagesRun(c: Crypto, trusted: set<Bytes>, s: State, acts: seq<Action>, t: Store)
    requires t.packages == s.store.packages
    ensures Run(c, trusted, t, StoreOrder(c, trusted, s, acts)).packages == Exec(c, trusted, s, acts).store.packages
    decreases |acts|
  {
    if acts != [] {
      var s', rest := Next(c, trusted, s, acts[0]), acts[1..];
      var tail := StoreOrder(c, trusted, s', rest);
      if WritesPackage(c, trusted, s, acts[0]) {
        var all := [acts[0].attempt] + tail;
        assert all[0] == acts[0].attempt && all[1..] == tail;
        PackagesRun(c, trusted, s', rest, Registered(c, trusted, t, acts[0].attempt));
      } else {
        assert [] + tail == tail;
        PackagesRun(c, trusted, s', rest, t);
      }
    }
  }

  /** Everything in flight passed its checks and is stored. */
  ghost predicate Vetted(c: Crypto, trusted: set<Bytes>, s: State) {
    forall k :: k in s.inFlight ==>
      Objection(c, trusted, s.inFlight[k].package).None? && s.inFlight[k].package.id in s.store.packages
  }

  lemma VettedStep(c: Crypto, trusted: set<Bytes>, s: State, a: Action)
    requires Vetted(c, trusted, s)
    ensures Vetted(c, trusted, Next(c, trusted, s, a))
  {
  }

  lemma {:induction false} IndexRun(c: Crypto, trusted: set<Bytes>, s: State, acts: seq<Action>, t: Store)
    requires t.nameIndex == s.store.nameIndex && Vetted(c, trusted, s)
    ensures Run(c, trusted, t, IndexOrder(c, trusted, s, acts)).nameIndex == Exec(c, trusted, s, acts).store.nameIndex
    decreases |acts|
  {
    if acts != [] {
      var s', rest := Next(c, trusted, s, acts[0]), acts[1..];
      VettedStep(c, trusted, s, acts[0]);
      var tail := IndexOrder(c, trusted, s', rest);
      if WritesIndex(s, acts[0]) {
        var at := s.inFlight[acts[0].k];
        var all := [at] + tail;
        assert all[0] == at && all[1..] == tail;
        IndexRun(c, trusted, s', rest, Registered(c, trusted, t, at));
      } else {
        assert [] + tail == tail;
        IndexRun(c, trusted, s', rest, t);
      }
    }
  }

  /** In every interleaving each table is the one that registrations done one after the other leave,
      in the order in which they wrote that table. */
  lemma TablesAreSequential(c: Crypto, trusted: set<Bytes>, acts: seq<Action>)
    ensures var s := Exec(c, trusted, INIT, acts).store;
            && s.packages == Run(c, trusted, EMPTY, StoreOrder(c, trusted, INIT, acts)).packages
            && s.nameIndex == Run(c, trusted, EMPTY, IndexOrder(c, trusted, INIT, acts)).nameIndex
  {
    PackagesRun(c, trusted, INIT, acts, EMPTY);
    IndexRun(c, trusted, INIT, acts, EMPTY);
  }

  /** So the versions listed for a name are the log of index writes, in any interleaving. */
  lemma VersionsAreTheIndexLog(c: Crypto, trusted: set<Bytes>, acts: seq<Action>, name: string)
    ensures VersionsOf(Exec(c, trusted, INIT, acts).store, name) ==
            SuccessLog(c, trusted, IndexOrder(c, trusted, INIT, acts), name)
  {
    TablesAreSequential(c, trusted, acts);
    VersionsAreTheLog(c, trusted, IndexOrder(c, trusted, INIT, acts), name);
  }

  // ---------------------------------------------------------------------------
  // What every interleaving keeps
  // ---------------------------------------------------------------------------

  /** A stored package is listed under its name or its registration is still in flight. */
  ghost predicate ListedOrPending(s: State, id: PackageId) {
    id in s.store.packages ==>
      IsIndexed(s.store, s.store.packages[id]) ||
      exists k :: k in s.inFlight && s.inFlight[k].package == s.store.packages[id]
  }

  lemma SoundStep(c: Crypto, trusted: set<Bytes>, s: State, a: Action)
    requires Sound(c, trusted, s.store) && Vetted(c, trusted, s)
    ensures Sound(c, trusted, Next(c, trusted, s, a).store) && Vetted(c, trusted, Next(c, trusted, s, a))
  {
    var s' := Next(c, trusted, s, a);
    forall name, i | 0 <= i < |VersionsOf(s'.store, name)|
      ensures VersionsOf(s'.store, name)[i] in s'.store.packages
    {
      if i < |VersionsOf(s.store, name)| {
        assert VersionsOf(s'.store, name)[i] == VersionsOf(s.store, name)[i];
      }
    }
  }

  lemma {:induction false} SoundRun(c: Crypto, trusted: set<Bytes>, s: State, acts: seq<Action>)
    requires Sound(c, trusted, s.store) && Vetted(c, trusted, s)
    ensures Sound(c, trusted, Exec(c, trusted, s, acts).store)
    decreases |acts|
  {
    if acts != [] {
      SoundStep(c, trusted, s, acts[0]);
      SoundRun(c, trusted, Next(c, trusted, s, acts[0]), acts[1..]);
    }
  }

  /** In every interleaving every stored package passed the checks and every indexed id resolves. */
  lemma InterleavedIsSound(c: Crypto, trusted: set<Bytes>, acts: seq<Action>)
    ensures Sound(c, trusted, Exec(c, trusted, INIT, acts).store)
  {
    SoundRun(c, trusted, INIT, acts);
  }

  lemma IndexKeeps(s: Store, p: AppPackage, q: AppPackage)
    ensures IsIndexed(s, q) ==> IsIndexed(Indexed(s, p), q)
    ensures IsIndexed(Indexed(s, p), p)
  {
    var s' := Indexed(s, p);
    var n := |VersionsOf(s, p.name)|;
    assert VersionsOf(s', p.name)[n] == p.id;
    if i :| 0 <= i < |VersionsOf(s, q.name)| && VersionsOf(s, q.name)[i] == q.id {
      assert VersionsOf(s', q.name)[i] == q.id;
    }
  }

  /** No registration of the run, or in flight, has its emission rejected. */
  ghost predicate NoRejections(s: State, acts: seq<Action>) {
    && (forall k :: k in s.inFlight ==> !s.inFlight[k].emission.Rejected?)
    && forall i :: 0 <= i < |acts| && acts[i].Insert? ==> !acts[i].attempt.emission.Rejected?
  }

  lemma ListedStep(c: Crypto, trusted: set<Bytes>, s: State, a: Action, id: PackageId)
    requires ListedOrPending(s, id) && NoRejections(s, [a])
    ensures ListedOrPending(Next(c, trusted, s, a), id)
  {
    var s' := Next(c, trusted, s, a);
    if WritesPackage(c, trusted, s, a) {
      assert s'.inFlight[a.k] == a.attempt;
      if a.attempt.package.id != id && id in s.store.packages {
        var p := s.store.packages[id];
        if k :| k in s.inFlight && s.inFlight[k].package == p {
          assert s'.inFlight[k] == s.inFlight[k];
        } else {
          assert IsIndexed(s.store, p) && VersionsOf(s'.store, p.name) == VersionsOf(s.store, p.name);
        }
      }
    } else if WritesIndex(s, a) {
      if id in s.store.packages {
        var p := s.store.packages[id];
        IndexKeeps(s.store, s.inFlight[a.k].package, p);
        if k :| k in s.inFlight && s.inFlight[k].package == p && k != a.k {
          assert s'.inFlight[k] == s.inFlight[k];
        }
      }
    } else {
      assert s'.inFlight == s.inFlight;
    }
  }

  lemma {:induction false} ListedRun(c: Crypto, trusted: set<Bytes>, s: State, acts: seq<Action>, id: PackageId)
    requires ListedOrPending(s, id) && NoRejections(s, acts)
    ensures ListedOrPending(Exec(c, trusted, s, acts), id)
    decreases |acts|
  {
    if acts != [] {
      var s' := Next(c, trusted, s, acts[0]);
      assert acts[0] == [acts[0]][0];
      ListedStep(c, trusted, s, acts[0], id);
      assert NoRejections(s', acts[1..]);
      ListedRun(c, trusted, s', acts[1..], id);
    }
  }

  /** If no emission is rejected, then in every interleaving a stored package is listed under its
      current name or about to be; with nothing in flight it is listed. */
  lemma AllListedOrPending(c: Crypto, trusted: set<Bytes>, acts: seq<Action>, id: PackageId)
    requires NoRejections(INIT, acts)
    ensures var s := Exec(c, trusted, INIT, acts);
            && ListedOrPending(s, id)
            && (id in s.store.packages && s.inFlight == map[] ==> IsIndexed(s.store, s.store.packages[id]))
  {
    ListedRun(c, trusted, INIT, acts, id);
  }

  // ---------------------------------------------------------------------------
  // The order of the listing
  // ---------------------------------------------------------------------------

  /** In all runs within the limits that have come to an end, versions are listed in the order in
      which their packages were stored. */
  ghost predicate ListsInStoreOrder(c: Crypto, trusted: set<Bytes>, n: nat, m: nat) {
    forall acts, name :: IsRun(c, trusted, n, m, INIT, acts) && Exec(c, trusted, INIT, acts).inFlight == map[] ==>
      VersionsOf(Exec(c, trusted, INIT, acts).store, name) ==
      SuccessLog(c, trusted, StoreOrder(c, trusted, INIT, acts), name)
  }

  /** What an attempt adds to the log of the name. */
  function Shown(c: Crypto, trusted: set<Bytes>, at: Attempt, name: string): seq<PackageId> {
    if Succeeds(c, trusted, at) && at.package.name == name then [at.package.id] else []
  }

  lemma LogCons(c: Crypto, trusted: set<Bytes>, at: Attempt, tail: seq<Attempt>, name: string)
    ensures SuccessLog(c, trusted, [at] + tail, name) ==
            Shown(c, trusted, at, name) + SuccessLog(c, trusted, tail, name)
  {
    assert ([at] + tail)[0] == at && ([at] + tail)[1..] == tail;
  }

  /** At most one registration is in flight under the name, and `due` is what it will add to the
      listing. */
  ghost predicate Due(c: Crypto, trusted: set<Bytes>, inFlight: map<OpId, Attempt>, name: string, due: seq<PackageId>) {
    if On(inFlight, name) == {} then due == []
    else exists k :: k in inFlight && On(inFlight, name) == {k} && due == Shown(c, trusted, inFlight[k], name)
  }

  /** Within the limits a registration begins when none is in flight under its name. */
  lemma BeginsAlone(n: nat, m: nat, s: State, a: Action)
    requires (n <= 1 || m <= 1) && a.Insert? && Within(n, m, s, a)
    ensures On(s.inFlight, a.attempt.package.name) == {}
  {
    SubsetCardinality(On(s.inFlight, a.attempt.package.name), s.inFlight.Keys);
  }

  lemma DueAfterInsert(c: Crypto, trusted: set<Bytes>, inFlight: map<OpId, Attempt>, k: OpId, at: Attempt,
                       name: string, due: seq<PackageId>)
    requires k !in inFlight && On(inFlight, at.package.name) == {} && Due(c, trusted, inFlight, name, due)
    ensures Due(c, trusted, inFlight[k := at], name, due + Shown(c, trusted, at, name))
  {
    if at.package.name == name {
      assert On(inFlight[k := at], name) == {k};
    } else {
      assert On(inFlight[k := at], name) == On(inFlight, name);
      assert due + [] == due;
    }
  }

  lemma DueAfterIndex(c: Crypto, trusted: set<Bytes>, inFlight: map<OpId, Attempt>, k: OpId, name: string,
                      due: seq<PackageId>)
    returns (due': seq<PackageId>)
    requires k in inFlight && Due(c, trusted, inFlight, name, due)
    ensures Due(c, trusted, inFlight - {k}, name, due')
    ensures due == Shown(c, trusted, inFlight[k], name) + due'
  {
    if inFlight[k].package.name == name {
      assert k in On(inFlight, name);
      assert On(inFlight - {k}, name) == {};
      due' := [];
    } else {
      assert On(inFlight - {k}, name) == On(inFlight, name);
      due' := due;
    }
  }

  /** The listing after a registration ends. */
  lemma EndShows(c: Crypto, trusted: set<Bytes>, s: State, a: Action, name: string)
    requires a.Index? && a.k in s.inFlight && Vetted(c, trusted, s)
    ensures Next(c, trusted, s, a).inFlight == s.inFlight - {a.k}
    ensures VersionsOf(Next(c, trusted, s, a).store, name) ==
            VersionsOf(s.store, name) + Shown(c, trusted, s.inFlight[a.k], name)
  {
  }

  /** What a step adds to the log of stored packages. */
  function Added(c: Crypto, trusted: set<Bytes>, s: State, a: Action, name: string): seq<PackageId> {
    if WritesPackage(c, trusted, s, a) then Shown(c, trusted, a.attempt, name) else []
  }

  lemma AddedToLog(c: Crypto, trusted: set<Bytes>, s: State, acts: seq<Action>, name: string)
    requires acts != []
    ensures SuccessLog(c, trusted, StoreOrder(c, trusted, s, acts), name) ==
            Added(c, trusted, s, acts[0], name) +
            SuccessLog(c, trusted, StoreOrder(c, trusted, Next(c, trusted, s, acts[0]), acts[1..]), name)
  {
    var tail := StoreOrder(c, trusted, Next(c, trusted, s, acts[0]), acts[1..]);
    if WritesPackage(c, trusted, s, acts[0]) {
      LogCons(c, trusted, acts[0].attempt, tail, name);
    } else {
      assert [] + tail == tail;
    }
  }

  lemma DueInsert(c: Crypto, trusted: set<Bytes>, n: nat, m: nat, s: State, a: Action, name: string,
                  due: seq<PackageId>)
    returns (listed: seq<PackageId>, due': seq<PackageId>)
    requires (n <= 1 || m <= 1) && Within(n, m, s, a) && WritesPackage(c, trusted, s, a)
    requires Due(c, trusted, s.inFlight, name, due)
    ensures Due(c, trusted, Next(c, trusted, s, a).inFlight, name, due')
    ensures VersionsOf(Next(c, trusted, s, a).store, name) == VersionsOf(s.store, name) + listed
    ensures listed + due' == due + Added(c, trusted, s, a, name)
  {
    BeginsAlone(n, m, s, a);
    DueAfterInsert(c, trusted, s.inFlight, a.k, a.attempt, name, due);
    listed, due' := [], due + Shown(c, trusted, a.attempt, name);
  }

  lemma DueIndex(c: Crypto, trusted: set<Bytes>, s: State, a: Action, name: string, due: seq<PackageId>)
    returns (listed: seq<PackageId>, due': seq<PackageId>)
    requires a.Index? && a.k in s.inFlight && Vetted(c, trusted, s) && Due(c, trusted, s.inFlight, name, due)
    ensures Due(c, trusted, Next(c, trusted, s, a).inFlight, name, due')
    ensures VersionsOf(Next(c, trusted, s, a).store, name) == VersionsOf(s.store, name) + listed
    ensures listed + due' == due + Added(c, trusted, s, a, name)
  {
    EndShows(c, trusted, s, a, name);
    listed := Shown(c, trusted, s.inFlight[a.k], name);
    due' := DueAfterIndex(c, trusted, s.inFlight, a.k, name, due);
    assert due + [] == due;
  }

  lemma DueIdle(c: Crypto, trusted: set<Bytes>, s: State, a: Action, name: string, due: seq<PackageId>)
    returns (listed: seq<PackageId>, due': seq<PackageId>)
    requires !WritesPackage(c, trusted, s, a) && !(a.Index? && a.k in s.inFlight)
    requires Due(c, trusted, s.inFlight, name, due)
    ensures Due(c, trusted, Next(c, trusted, s, a).inFlight, name, due')
    ensures VersionsOf(Next(c, trusted, s, a).store, name) == VersionsOf(s.store, name) + listed
    ensures listed + due' == due + Added(c, trusted, s, a, name)
  {
    assert a.Index? ==> s.inFlight - {a.k} == s.inFlight;
    listed, due' := [], due;
    assert listed + due' == due == due + [];
  }

  /** What a step lists and leaves due is what was due and what it stores. */
  lemma DueStep(c: Crypto, trusted: set<Bytes>, n: nat, m: nat, s: State, a: Action, name: string, due: seq<PackageId>)
    returns (listed: seq<PackageId>, due': seq<PackageId>)
    requires (n <= 1 || m <= 1) && Within(n, m, s, a) && Vetted(c, trusted, s) && Due(c, trusted, s.inFlight, name, due)
    ensures Due(c, trusted, Next(c, trusted, s, a).inFlight, name, due')
    ensures VersionsOf(Next(c, trusted, s, a).store, name) == VersionsOf(s.store, name) + listed
    ensures listed + due' == due + Added(c, trusted, s, a, name)
  {
    if WritesPackage(c, trusted, s, a) {
      listed, due' := DueInsert(c, trusted, n, m, s, a, name, due);
    } else if a.Index? && a.k in s.inFlight {
      listed, due' := DueIndex(c, trusted, s, a, name, due);
    } else {
      listed, due' := DueIdle(c, trusted, s, a, name, due);
    }
  }

  lemma Regroup<T>(v: seq<T>, listed: seq<T>, due: seq<T>, due': seq<T>, added: seq<T>, rest: seq<T>)
    requires listed + due' == due + added
    ensures v + listed + due' + rest == v + due + (added + rest)
  {
    assert v + listed + due' + rest == v + (listed + due') + rest;
  }

  lemma {:induction false} OneAtATime(c: Crypto, trusted: set<Bytes>, n: nat, m: nat, s: State, acts: seq<Action>,
                                      name: string, due: seq<PackageId>)
    requires (n <= 1 || m <= 1) && IsRun(c, trusted, n, m, s, acts)
    requires Vetted(c, trusted, s) && Due(c, trusted, s.inFlight, name, due)
    requires Exec(c, trusted, s, acts).inFlight == map[]
    ensures VersionsOf(Exec(c, trusted, s, acts).store, name) ==
            VersionsOf(s.store, name) + due + SuccessLog(c, trusted, StoreOrder(c, trusted, s, acts), name)
    decreases |acts|
  {
    if acts == [] {
      assert On(s.inFlight, name) == {};
    } else {
      var s' := Next(c, trusted, s, acts[0]);
      VettedStep(c, trusted, s, acts[0]);
      var listed, due' := DueStep(c, trusted, n, m, s, acts[0], name, due);
      OneAtATime(c, trusted, n, m, s', acts[1..], name, due');
      AddedToLog(c, trusted, s, acts, name);
      Regroup(VersionsOf(s.store, name), listed, due, due', Added(c, trusted, s, acts[0], name),
              SuccessLog(c, trusted, StoreOrder(c, trusted, s', acts[1..]), name));
    }
  }

  lemma FirstStep(c: Crypto, trusted: set<Bytes>, n: nat, m: nat, s: State, a: Action, rest: seq<Action>)
    ensures IsRun(c, trusted, n, m, s, [a] + rest) <==>
            Within(n, m, s, a) && IsRun(c, trusted, n, m, Next(c, trusted, s, a), rest)
    ensures Exec(c, trusted, s, [a] + rest) == Exec(c, trusted, Next(c, trusted, s, a), rest)
    ensures StoreOrder(c, trusted, s, [a] + rest) ==
            (if WritesPackage(c, trusted, s, a) then [a.attempt] else [])
            + StoreOrder(c, trusted, Next(c, trusted, s, a), rest)
  {
    assert ([a] + rest)[0] == a && ([a] + rest)[1..] == rest;
  }

  lemma IndexFirst(c: Crypto, trusted: set<Bytes>, s: State, k: OpId)
    requires k in s.inFlight && !s.inFlight[k].emission.Rejected?
    ensures Next(c, trusted, s, Index(k)) == State(Indexed(s.store, s.inFlight[k].package), s.inFlight - {k})
  {
  }

  /** Two registrations in flight write the index, the second one first. */
  lemma IndexBackwards(c: Crypto, trusted: set<Bytes>, n: nat, m: nat, s: State, a: Attempt, b: Attempt)
    returns (acts: seq<Action>)
    requires n >= 2 && m >= 2 && s.inFlight == map[0 := a, 1 := b] && s.store.nameIndex == map[]
    requires !a.emission.Rejected? && !b.emission.Rejected? && a.package.name == b.package.name
    ensures IsRun(c, trusted, n, m, s, acts) && Exec(c, trusted, s, acts).inFlight == map[]
    ensures VersionsOf(Exec(c, trusted, s, acts).store, a.package.name) == [b.package.id, a.package.id]
    ensures StoreOrder(c, trusted, s, acts) == []
  {
    IndexFirst(c, trusted, s, 1);
    var s1 := State(Indexed(s.store, b.package), map[0 := a]);
    assert s.inFlight - {1} == s1.inFlight && |s1.inFlight| == 1 && |s.inFlight| == 2;
    IndexFirst(c, trusted, s1, 0);
    assert s1.inFlight - {0} == map[];
    FirstStep(c, trusted, n, m, s1, Index(0), []);
    FirstStep(c, trusted, n, m, s, Index(1), [Index(0)] + []);
    acts := [Index(1)] + ([Index(0)] + []);
  }

  /** The package stored first is listed last. */
  lemma Overtaking(c: Crypto, trusted: set<Bytes>, n: nat, m: nat, p: AppPackage, q: AppPackage)
    returns (acts: seq<Action>)
    requires n >= 2 && m >= 2 && Trustworthy(c, trusted, p) && Trustworthy(c, trusted, q) && p.name == q.name
    ensures IsRun(c, trusted, n, m, INIT, acts) && Exec(c, trusted, INIT, acts).inFlight == map[]
    ensures VersionsOf(Exec(c, trusted, INIT, acts).store, p.name) == [q.id, p.id]
    ensures SuccessLog(c, trusted, StoreOrder(c, trusted, INIT, acts), p.name) == [p.id, q.id]
  {
    var a, b := Attempt(p, NoEmitter), Attempt(q, NoEmitter);
    var s1 := Next(c, trusted, INIT, Insert(0, a));
    assert s1.inFlight == map[0 := a] && |s1.inFlight| == 1;
    assert On(INIT.inFlight, p.name) == {} && On(s1.inFlight, q.name) == {0};
    var s2 := Next(c, trusted, s1, Insert(1, b));
    assert s2.inFlight == map[0 := a, 1 := b];
    var rest := IndexBackwards(c, trusted, n, m, s2, a, b);
    FirstStep(c, trusted, n, m, s1, Insert(1, b), rest);
    FirstStep(c, trusted, n, m, INIT, Insert(0, a), [Insert(1, b)] + rest);
    acts := [Insert(0, a)] + ([Insert(1, b)] + rest);
    LogCons(c, trusted, a, [b] + [], p.name);
    LogCons(c, trusted, b, [], p.name);
  }

  /** Given two packages of one name that pass the checks, versions are listed in the order in which
      they were stored, in all runs, exactly when registrations under one name do not overlap. */
  lemma InOrderExactlyWithoutOverlap(c: Crypto, trusted: set<Bytes>, n: nat, m: nat, p: AppPackage, q: AppPackage)
    requires Trustworthy(c, trusted, p) && Trustworthy(c, trusted, q) && p.name == q.name && p.id != q.id
    ensures ListsInStoreOrder(c, trusted, n, m) <==> n <= 1 || m <= 1
  {
    if n <= 1 || m <= 1 {
      forall acts, name | IsRun(c, trusted, n, m, INIT, acts) && Exec(c, trusted, INIT, acts).inFlight == map[]
        ensures VersionsOf(Exec(c, trusted, INIT, acts).store, name) ==
                SuccessLog(c, trusted, StoreOrder(c, trusted, INIT, acts), name)
      {
        OneAtATime(c, trusted, n, m, INIT, acts, name, []);
        assert [] + StoreOrder(c, trusted, INIT, acts) == StoreOrder(c, trusted, INIT, acts);
      }
    } else {
      var acts := Overtaking(c, trusted, n, m, p, q);
      assert [q.id, p.id][0] != [p.id, q.id][0];
    }
  }
}
