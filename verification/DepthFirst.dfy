/**
 Depth-first search as a log of what it did, without colors, stack frames or parent pointers:
 which logs are depth-first searches of a graph, and what such a log says.
 */
module DepthFirst {
  import opened Wrappers
  import opened Graphs

  /** A search starts at a node, looks at an adjacency entry, or finishes a node. */
  datatype Event = Start(node: Node) | Look(entry: Entry) | Finish(node: Node)

  type Log = seq<Event>

  /** What a log amounts to: the nodes that were discovered and are not finished, in the order of
      their discovery; the finished nodes, the entries looked at and those that led back to an open
      node, each in order; and the cycles that the latter closed. */
  datatype Progress = Progress(
    open: seq<Node>,
    finished: seq<Node>,
    looked: seq<Entry>,
    backs: seq<Entry>,
    loops: seq<seq<Node>>)

  function Last<T>(s: seq<T>): T
    requires s != []
  {
    s[|s| - 1]
  }

  function Front<T>(s: seq<T>): seq<T>
    requires s != []
  {
    s[..|s| - 1]
  }

  // ---------------------------------------------------------------------------
  // Reading a log
  // ---------------------------------------------------------------------------

  /** Where the node is in the path. */
  ghost function PlaceOf(path: seq<Node>, n: Node): (q: nat)
    requires n in path
    ensures q < |path| && path[q] == n
    ensures forall i :: 0 <= i < q ==> path[i] != n
  {
    if path[0] == n then 0 else 1 + PlaceOf(path[1..], n)
  }

  /** The path from the node on, closed by it. */
  ghost function Loop(path: seq<Node>, n: Node): seq<Node>
    requires n in path
  {
    path[PlaceOf(path, n)..] + [n]
  }

  lemma LoopAt(path: seq<Node>, q: nat)
    requires NoRepeats(path) && q < |path|
    ensures path[q] in path && Loop(path, path[q]) == path[q..] + [path[q]]
  {
    assert path[q] in path;
    assert PlaceOf(path, path[q]) == q;
  }

  /** Looking at an entry discovers its target, unless that is finished, or open: then the entry leads
      back and closes a cycle. */
  ghost function AfterLook(g: Graph, p: Progress, e: Entry): Progress {
    var p' := p.(looked := p.looked + [e]);
    if !IsEntry(g, e) || Target(g, e) in p.finished then p'
    else if Target(g, e) in p.open then
      p'.(backs := p.backs + [e], loops := p.loops + [Loop(p.open, Target(g, e))])
    else p'.(open := p.open + [Target(g, e)])
  }

  lemma LookBack(g: Graph, p: Progress, e: Entry, q: nat)
    requires NoRepeats(p.open) && q < |p.open| && p.open[q] !in p.finished
    requires IsEntry(g, e) && Target(g, e) == p.open[q]
    ensures AfterLook(g, p, e) == p.(looked := p.looked + [e], backs := p.backs + [e],
                                     loops := p.loops + [p.open[q..] + [p.open[q]]])
  {
    LoopAt(p.open, q);
  }

  ghost function After(g: Graph, p: Progress, ev: Event): Progress {
    match ev
    case Start(n) => p.(open := p.open + [n])
    case Look(e) => AfterLook(g, p, e)
    case Finish(n) => p.(open := if p.open == [] then [] else Front(p.open), finished := p.finished + [n])
  }

  ghost function Replay(g: Graph, l: Log): Progress {
    if l == [] then Progress([], [], [], [], []) else After(g, Replay(g, Front(l)), Last(l))
  }

  // ---------------------------------------------------------------------------
  // Depth-first logs
  // ---------------------------------------------------------------------------

  /** The node is the first key that is not finished. */
  ghost predicate IsNextKey(keys: seq<Node>, finished: seq<Node>, n: Node) {
    exists j :: 0 <= j < |keys| && keys[j] == n && n !in finished && forall i :: 0 <= i < j ==> keys[i] in finished
  }

  /** May the event come next? A search starts, with nothing open, at the first key that is not
      finished. A step belongs to the node discovered last among the open ones: it looks at the
      node's first entry not looked at, or finishes the node when there is none. */
  ghost predicate Allowed(g: Graph, keys: seq<Node>, p: Progress, ev: Event) {
    match ev
    case Start(n) => p.open == [] && IsNextKey(keys, p.finished, n)
    case Look(e) =>
      && p.open != [] && Last(p.open) == e.node
      && IsEntry(g, e) && e !in p.looked && forall i: nat :: i < e.index ==> Entry(e.node, i) in p.looked
    case Finish(n) =>
      && p.open != [] && Last(p.open) == n
      && forall i: nat :: i < |Neighbors(g, n)| ==> Entry(n, i) in p.looked
  }

  ghost predicate IsDepthFirst(g: Graph, keys: seq<Node>, l: Log) {
    l == [] || (IsDepthFirst(g, keys, Front(l)) && Allowed(g, keys, Replay(g, Front(l)), Last(l)))
  }

  /** Nothing is left to do. */
  ghost predicate Ended(keys: seq<Node>, p: Progress) {
    p.open == [] && forall j :: 0 <= j < |keys| ==> keys[j] in p.finished
  }

  lemma OneMoreEvent(g: Graph, keys: seq<Node>, l: Log, ev: Event)
    ensures Replay(g, l + [ev]) == After(g, Replay(g, l), ev)
    ensures IsDepthFirst(g, keys, l + [ev]) <==> IsDepthFirst(g, keys, l) && Allowed(g, keys, Replay(g, l), ev)
  {
    assert Front(l + [ev]) == l;
  }

  lemma OneStart(keys: seq<Node>, finished: seq<Node>, m: Node, n: Node)
    requires IsNextKey(keys, finished, m) && IsNextKey(keys, finished, n)
    ensures m == n
  {
    var i :| 0 <= i < |keys| && keys[i] == m && m !in finished && forall h :: 0 <= h < i ==> keys[h] in finished;
    var j :| 0 <= j < |keys| && keys[j] == n && n !in finished && forall h :: 0 <= h < j ==> keys[h] in finished;
    assert i == j;
  }

  /** At most one event may come next, and none once the search has ended. */
  lemma OneAllowed(g: Graph, keys: seq<Node>, p: Progress, a: Event, b: Event)
    requires Allowed(g, keys, p, a) && Allowed(g, keys, p, b)
    ensures a == b && !Ended(keys, p)
  {
    if a.Start? && b.Start? {
      OneStart(keys, p.finished, a.node, b.node);
    } else if a.Look? && b.Look? {
      assert a.entry == Entry(a.entry.node, a.entry.index) && b.entry == Entry(b.entry.node, b.entry.index);
      assert a.entry.index == b.entry.index;
    }
  }

  lemma {:induction false} AllowedAt(g: Graph, keys: seq<Node>, l: Log, k: nat)
    requires IsDepthFirst(g, keys, l) && k < |l|
    ensures IsDepthFirst(g, keys, l[..k]) && Allowed(g, keys, Replay(g, l[..k]), l[k])
  {
    if k < |l| - 1 {
      AllowedAt(g, keys, Front(l), k);
      assert Front(l)[..k] == l[..k];
    }
  }

  lemma SameNext(g: Graph, keys: seq<Node>, l: Log, l': Log, k: nat)
    requires IsDepthFirst(g, keys, l) && IsDepthFirst(g, keys, l') && k < |l| && k < |l'| && l[..k] == l'[..k]
    ensures l[k] == l'[k]
  {
    AllowedAt(g, keys, l, k);
    AllowedAt(g, keys, l', k);
    OneAllowed(g, keys, Replay(g, l[..k]), l[k], l'[k]);
  }

  lemma LongerPrefix<T>(s: seq<T>, s': seq<T>, k: nat)
    requires k < |s| && k < |s'| && s[..k] == s'[..k] && s[k] == s'[k]
    ensures s[..k + 1] == s'[..k + 1]
  {
    assert s[..k + 1] == s[..k] + [s[k]] && s'[..k + 1] == s'[..k] + [s'[k]];
  }

  lemma {:induction false} SamePrefix(g: Graph, keys: seq<Node>, l: Log, l': Log, k: nat)
    requires IsDepthFirst(g, keys, l) && IsDepthFirst(g, keys, l') && k <= |l| && k <= |l'|
    ensures l[..k] == l'[..k]
  {
    if k > 0 {
      SamePrefix(g, keys, l, l', k - 1);
      SameNext(g, keys, l, l', k - 1);
      LongerPrefix(l, l', k - 1);
    }
  }

  lemma NotOver(g: Graph, keys: seq<Node>, l: Log, k: nat)
    requires IsDepthFirst(g, keys, l) && k < |l|
    ensures !Ended(keys, Replay(g, l[..k]))
  {
    AllowedAt(g, keys, l, k);
    OneAllowed(g, keys, Replay(g, l[..k]), l[k], l[k]);
  }

  /** A search that has ended is no shorter than another one. */
  lemma NoShorter(g: Graph, keys: seq<Node>, l: Log, l': Log)
    requires IsDepthFirst(g, keys, l) && IsDepthFirst(g, keys, l') && Ended(keys, Replay(g, l))
    ensures |l'| <= |l|
  {
    if |l| < |l'| {
      SamePrefix(g, keys, l, l', |l|);
      assert l[..|l|] == l;
      NotOver(g, keys, l', |l|);
    }
  }

  /** A graph and an order of its keys have one depth-first search. */
  lemma OneSearch(g: Graph, keys: seq<Node>, l: Log, l': Log)
    requires IsDepthFirst(g, keys, l) && Ended(keys, Replay(g, l))
    requires IsDepthFirst(g, keys, l') && Ended(keys, Replay(g, l'))
    ensures l == l'
  {
    NoShorter(g, keys, l, l');
    NoShorter(g, keys, l', l);
    SamePrefix(g, keys, l, l', |l|);
    assert l[..|l|] == l && l'[..|l|] == l';
  }

  // ---------------------------------------------------------------------------
  // What a depth-first log says
  // ---------------------------------------------------------------------------

  /** The entries of each node are looked at by rising index, none twice. */
  ghost predicate LooksRise(looked: seq<Entry>) {
    forall p, q :: 0 <= p < q < |looked| && looked[p].node == looked[q].node ==> looked[p].index < looked[q].index
  }

  /** No entry was looked at before those with a lower index. */
  ghost predicate LooksAreClosed(looked: seq<Entry>) {
    forall e, i: nat :: e in looked && i < e.index ==> Entry(e.node, i) in looked
  }

  lemma OneMoreLook(looked: seq<Entry>, e: Entry)
    requires LooksRise(looked) && LooksAreClosed(looked)
    requires e !in looked && forall i: nat :: i < e.index ==> Entry(e.node, i) in looked
    ensures LooksRise(looked + [e]) && LooksAreClosed(looked + [e])
  {
    forall p | 0 <= p < |looked| && looked[p].node == e.node
      ensures looked[p].index < e.index
    {
      assert looked[p] in looked;
      assert e == Entry(looked[p].node, e.index);
    }
  }

  lemma {:induction false} DepthFirstLooksRise(g: Graph, keys: seq<Node>, l: Log)
    requires IsDepthFirst(g, keys, l)
    ensures LooksRise(Replay(g, l).looked) && LooksAreClosed(Replay(g, l).looked)
  {
    if l != [] {
      DepthFirstLooksRise(g, keys, Front(l));
      if Last(l).Look? {
        OneMoreLook(Replay(g, Front(l)).looked, Last(l).entry);
      }
    }
  }

  /** The node that takes the step. */
  ghost function StepOf(ev: Event): Node {
    if ev.Look? then ev.entry.node else ev.node
  }

  /** Of the entries that the node has looked at, each led back or has a finished target. */
  ghost predicate IsSettled(g: Graph, p: Progress, backs: seq<Entry>, n: Node) {
    forall i: nat :: Entry(n, i) in p.looked ==>
      IsEntry(g, Entry(n, i)) && (Entry(n, i) in backs || Target(g, Entry(n, i)) in p.finished)
  }

  /** Whenever a node looks at its next entry or finishes, it is settled. */
  ghost predicate Settled(g: Graph, l: Log, backs: seq<Entry>) {
    forall q :: 0 <= q < |l| && !l[q].Start? ==> IsSettled(g, Replay(g, l[..q]), backs, StepOf(l[q]))
  }

  lemma SettledGrows(g: Graph, l: Log, backs: seq<Entry>, ev: Event, backs': seq<Entry>)
    requires Settled(g, l, backs) && forall e :: e in backs ==> e in backs'
    requires ev.Start? || IsSettled(g, Replay(g, l), backs', StepOf(ev))
    ensures Settled(g, l + [ev], backs')
  {
    var l' := l + [ev];
    forall q | 0 <= q < |l'| && !l'[q].Start?
      ensures IsSettled(g, Replay(g, l'[..q]), backs', StepOf(l'[q]))
    {
      if q < |l| {
        assert l'[..q] == l[..q] && l'[q] == l[q];
      } else {
        assert l'[..q] == l;
      }
    }
  }

  /** The nodes are finished in turns, one for each key in order: after the turn of a key the finished
      nodes are those reachable from the keys so far, and a turn that finishes any node finishes the
      key last. */
  ghost predicate InTurns(g: Graph, keys: seq<Node>, order: seq<Node>, cuts: seq<nat>) {
    && |cuts| == |keys| + 1 && cuts[0] == 0 && cuts[|keys|] == |order|
    && (forall k :: 0 <= k < |keys| ==> cuts[k] <= cuts[k + 1])
    && (forall k :: 0 <= k < |cuts| ==> cuts[k] <= |order|)
    && (forall k, n :: 0 <= k <= |keys| ==> (n in order[..cuts[k]] <==> ReachableFrom(g, keys[..k], n)))
    && forall k :: 0 <= k < |keys| && cuts[k] < cuts[k + 1] ==> order[cuts[k + 1] - 1] == keys[k]
  }

  /** A further turn leaves the earlier ones as they were. */
  lemma OneMoreTurn(g: Graph, keys: seq<Node>, key: Node, order: seq<Node>, order': seq<Node>, cuts: seq<nat>)
    requires InTurns(g, keys, order, cuts) && order <= order'
    requires forall n :: n in order' <==> ReachableFrom(g, keys + [key], n)
    requires |order| < |order'| ==> Last(order') == key
    ensures InTurns(g, keys + [key], order', cuts + [|order'|])
  {
    var keys', cuts' := keys + [key], cuts + [|order'|];
    forall j, n | 0 <= j <= |keys'|
      ensures n in order'[..cuts'[j]] <==> ReachableFrom(g, keys'[..j], n)
    {
      if j <= |keys| {
        assert keys'[..j] == keys[..j] && order'[..cuts'[j]] == order[..cuts[j]];
      } else {
        assert keys'[..j] == keys' && order'[..cuts'[j]] == order';
      }
    }
  }
}
