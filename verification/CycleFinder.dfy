/**
 The cycle finder of the Consumes-graph analysis: an iterative white/gray/black
 depth-first search with an explicit stack, whose cycles are rebuilt from parent
 pointers.
 */
module CycleFinder {
  import opened Wrappers
  import opened Graphs
  import opened DepthFirst

  datatype Color = White | Gray | Black

  /** A stack element: a node and the index of its next neighbour to look at. */
  datatype Frame = Frame(node: Node, next: nat)

  /** What a search did, in order: nodes as they turned black, entries as they were
      examined, and the examined entries that pointed to a gray node. */
  datatype Trace = Trace(order: seq<Node>, examined: seq<Entry>, backs: seq<Entry>)

  // ---------------------------------------------------------------------------
  // The search invariant
  // ---------------------------------------------------------------------------

  function ColorOf(color: map<Node, Color>, n: Node): Color {
    if n in color then color[n] else White
  }

  ghost function Path(stack: seq<Frame>): (p: seq<Node>)
    ensures |p| == |stack|
    ensures forall i :: 0 <= i < |p| ==> p[i] == stack[i].node
  {
    seq(|stack|, i requires 0 <= i < |stack| => stack[i].node)
  }

  /** The loop grays the top of the stack before it does anything else. */
  ghost function Grayed(color: map<Node, Color>, stack: seq<Frame>): map<Node, Color> {
    if stack == [] then color else color[stack[|stack| - 1].node := Gray]
  }

  /** Black is the finishing order, gray is the stack, and the two are disjoint. */
  ghost predicate ColorsAgree(color: map<Node, Color>, path: seq<Node>, order: seq<Node>) {
    && NoRepeats(path)
    && NoRepeats(order)
    && (forall n :: n in path ==> n !in order)
    && forall n :: ColorOf(color, n) == if n in order then Black else if n in path then Gray else White
  }

  /** The parent of the i-th stack node is the node below it, or none for the root. */
  ghost predicate ParentIsBelow(parent: map<Node, Option<Node>>, path: seq<Node>, i: nat)
    requires i < |path|
  {
    path[i] in parent && parent[path[i]] == if i == 0 then None else Some(path[i - 1])
  }

  /** Following parents from any stack node walks down the stack to a root. */
  ghost predicate ParentChain(parent: map<Node, Option<Node>>, path: seq<Node>) {
    forall i: nat :: i < |path| ==> ParentIsBelow(parent, path, i)
  }

  /** Frame `i + 1` was pushed by the entry that frame `i` examined last. */
  ghost predicate StackIsWalk(g: Graph, stack: seq<Frame>) {
    && (forall i :: 0 <= i < |stack| ==> stack[i].next <= |Neighbors(g, stack[i].node)|)
    && forall i :: 0 <= i < |stack| - 1 ==>
         stack[i].next > 0 && Neighbors(g, stack[i].node)[stack[i].next - 1] == stack[i + 1].node
  }

  /** Entry `i` of the k-th black node leads to a colored node, and was a back entry exactly
      when its target had not turned black before the node did. */
  ghost predicate BlackEntry(g: Graph, path: seq<Node>, t: Trace, k: nat, i: nat)
    requires k < |t.order| && i < |Neighbors(g, t.order[k])|
  {
    var v := Neighbors(g, t.order[k])[i];
    && (v in t.order || v in path)
    && (Entry(t.order[k], i) in t.backs <==> v !in t.order[..k])
  }

  ghost predicate BlackEntries(g: Graph, path: seq<Node>, t: Trace) {
    forall k: nat, i: nat :: k < |t.order| && i < |Neighbors(g, t.order[k])| ==> BlackEntry(g, path, t, k, i)
  }

  /** Is entry `i` of frame `p` the one whose target is the next frame? */
  ghost predicate IsTreeEntry(stack: seq<Frame>, p: nat, i: nat)
    requires p < |stack|
  {
    p + 1 < |stack| && i + 1 == stack[p].next
  }

  /** Entry `i` of frame `p`, already seen, is the one under exploration, a back entry to a
      node at most as high in the stack, or an entry to a black node. */
  ghost predicate GrayEntry(g: Graph, stack: seq<Frame>, t: Trace, p: nat, i: nat)
    requires p < |stack| && i < stack[p].next <= |Neighbors(g, stack[p].node)|
  {
    var v := Neighbors(g, stack[p].node)[i];
    if IsTreeEntry(stack, p, i) then Entry(stack[p].node, i) !in t.backs
    else if Entry(stack[p].node, i) in t.backs then v in Path(stack)[..p + 1]
    else v in t.order
  }

  ghost predicate GrayEntries(g: Graph, stack: seq<Frame>, t: Trace)
    requires StackIsWalk(g, stack)
  {
    forall p: nat, i: nat :: p < |stack| && i < stack[p].next ==> GrayEntry(g, stack, t, p, i)
  }

  /** The entries behind a black node or before a stack node's index. */
  ghost predicate Passed(g: Graph, stack: seq<Frame>, order: seq<Node>, e: Entry) {
    || (e.node in order && IsEntry(g, e))
    || exists p :: 0 <= p < |stack| && stack[p].node == e.node && e.index < stack[p].next
  }

  ghost predicate ExaminedOnce(g: Graph, stack: seq<Frame>, t: Trace) {
    && NoRepeats(t.examined)
    && NoRepeats(t.backs)
    && (forall e :: e in t.examined <==> Passed(g, stack, t.order, e))
    && forall e :: e in t.backs ==> e in t.examined
  }

  /** The k-th cycle is a simple cycle closed by the k-th back entry. */
  ghost predicate CyclesMatch(g: Graph, cycles: seq<seq<Node>>, backs: seq<Entry>) {
    && |cycles| == |backs|
    && forall k :: 0 <= k < |cycles| ==> SimpleCycle(g, cycles[k]) && Closes(g, cycles[k], backs[k])
  }

  ghost predicate Inv(g: Graph, color: map<Node, Color>, parent: map<Node, Option<Node>>,
                      stack: seq<Frame>, cycles: seq<seq<Node>>, t: Trace)
  {
    && ColorsAgree(color, Path(stack), t.order)
    && ParentChain(parent, Path(stack))
    && StackIsWalk(g, stack)
    && (forall n :: n in Path(stack) || n in t.order ==> n in Nodes(g))
    && BlackEntries(g, Path(stack), t)
    && GrayEntries(g, stack, t)
    && ExaminedOnce(g, stack, t)
    && CyclesMatch(g, cycles, t.backs)
  }

  // ---------------------------------------------------------------------------
  // The steps of the search
  // ---------------------------------------------------------------------------

  /** The stack after its top frame moved past one entry. */
  ghost function Advanced(stack: seq<Frame>): seq<Frame>
    requires stack != []
  {
    var top := stack[|stack| - 1];
    stack[|stack| - 1 := Frame(top.node, top.next + 1)]
  }

  ghost function TopEntry(stack: seq<Frame>): Entry
    requires stack != []
  {
    Entry(stack[|stack| - 1].node, stack[|stack| - 1].next)
  }

  /** The entry under the top frame's index has not been examined. */
  lemma TopEntryIsNew(g: Graph, stack: seq<Frame>, t: Trace)
    requires stack != []
    requires NoRepeats(Path(stack)) && ExaminedOnce(g, stack, t)
    requires Path(stack)[|stack| - 1] !in t.order
    ensures TopEntry(stack) !in t.examined && TopEntry(stack) !in t.backs
  {
    var e := TopEntry(stack);
    forall p | 0 <= p < |stack| && stack[p].node == e.node
      ensures stack[p].next <= e.index
    {
      assert Path(stack)[p] == Path(stack)[|stack| - 1];
    }
  }

  /** Moving past the top entry passes that entry and no other. */
  lemma AdvancePasses(g: Graph, stack: seq<Frame>, order: seq<Node>, e: Entry)
    requires stack != []
    ensures Passed(g, Advanced(stack), order, e) <==> Passed(g, stack, order, e) || e == TopEntry(stack)
  {
    var next := Advanced(stack);
    var top := |stack| - 1;
    if p :| 0 <= p < |stack| && stack[p].node == e.node && e.index < stack[p].next {
      assert next[p].node == e.node && e.index < next[p].next;
    }
    if e == TopEntry(stack) {
      assert next[top].node == e.node && e.index < next[top].next;
    }
    if p :| 0 <= p < |next| && next[p].node == e.node && e.index < next[p].next {
      assert p < top ==> stack[p] == next[p];
    }
  }

  lemma AdvanceExamined(g: Graph, stack: seq<Frame>, t: Trace, isBack: bool)
    requires stack != []
    requires NoRepeats(Path(stack)) && ExaminedOnce(g, stack, t)
    requires Path(stack)[|stack| - 1] !in t.order
    ensures var e := TopEntry(stack);
            var t' := t.(examined := t.examined + [e], backs := if isBack then t.backs + [e] else t.backs);
            ExaminedOnce(g, Advanced(stack), t')
  {
    TopEntryIsNew(g, stack, t);
    forall e {
      AdvancePasses(g, stack, t.order, e);
    }
  }

  lemma OldEntryStaysGray(g: Graph, stack: seq<Frame>, t: Trace, t': Trace, p: nat, i: nat)
    requires stack != [] && NoRepeats(Path(stack)) && IsEntry(g, TopEntry(stack))
    requires p < |stack| && i < stack[p].next <= |Neighbors(g, stack[p].node)|
    requires GrayEntry(g, stack, t, p, i)
    requires t'.order == t.order && (t'.backs == t.backs || t'.backs == t.backs + [TopEntry(stack)])
    ensures GrayEntry(g, Advanced(stack), t', p, i)
  {
    var top, next := |stack| - 1, Advanced(stack);
    assert Path(next) == Path(stack);
    assert IsTreeEntry(next, p, i) <==> IsTreeEntry(stack, p, i);
    assert Path(stack)[p] == Path(stack)[top] ==> p == top;
    assert Entry(next[p].node, i) in t'.backs <==> Entry(stack[p].node, i) in t.backs;
  }

  lemma AdvanceWalk(g: Graph, stack: seq<Frame>)
    requires stack != [] && StackIsWalk(g, stack) && IsEntry(g, TopEntry(stack))
    ensures StackIsWalk(g, Advanced(stack))
  {
  }

  // What moving the top frame past its entry keeps of the gray entries.
  lemma AdvanceGray(g: Graph, stack: seq<Frame>, t: Trace, t': Trace)
    requires stack != [] && StackIsWalk(g, stack) && GrayEntries(g, stack, t)
    requires IsEntry(g, TopEntry(stack)) && TopEntry(stack) !in t.backs
    requires NoRepeats(Path(stack))
    requires t'.order == t.order
    requires if t'.backs == t.backs then Target(g, TopEntry(stack)) in t.order
             else t'.backs == t.backs + [TopEntry(stack)] && Target(g, TopEntry(stack)) in Path(stack)
    ensures StackIsWalk(g, Advanced(stack)) && GrayEntries(g, Advanced(stack), t')
  {
    var top, next := |stack| - 1, Advanced(stack);
    assert Path(next) == Path(stack);
    AdvanceWalk(g, stack);
    forall p: nat, i: nat | p < |next| && i < next[p].next
      ensures GrayEntry(g, next, t', p, i)
    {
      if p == top && i == stack[top].next {
        assert Path(stack)[..p + 1] == Path(stack);
      } else {
        assert GrayEntry(g, stack, t, p, i);
        OldEntryStaysGray(g, stack, t, t', p, i);
      }
    }
  }

  lemma AdvanceBlack(g: Graph, path: seq<Node>, t: Trace, t': Trace)
    requires BlackEntries(g, path, t)
    requires t'.order == t.order
    requires t'.backs == t.backs || exists e :: t'.backs == t.backs + [e] && e.node !in t.order
    ensures BlackEntries(g, path, t')
  {
    forall k: nat, i: nat | k < |t'.order| && i < |Neighbors(g, t'.order[k])|
      ensures BlackEntry(g, path, t', k, i)
    {
      assert BlackEntry(g, path, t, k, i);
    }
  }

  /** Examining an entry to a black node. */
  lemma StepToBlack(g: Graph, color: map<Node, Color>, parent: map<Node, Option<Node>>,
                    stack: seq<Frame>, cycles: seq<seq<Node>>, t: Trace)
    requires stack != [] && Inv(g, color, parent, stack, cycles, t)
    requires IsEntry(g, TopEntry(stack)) && Target(g, TopEntry(stack)) in t.order
    ensures Inv(g, color, parent, Advanced(stack), cycles, t.(examined := t.examined + [TopEntry(stack)]))
  {
    var t' := t.(examined := t.examined + [TopEntry(stack)]);
    assert Path(Advanced(stack)) == Path(stack);
    assert Path(stack)[|stack| - 1] in Path(stack);
    TopEntryIsNew(g, stack, t);
    AdvanceExamined(g, stack, t, false);
    AdvanceGray(g, stack, t, t');
    AdvanceBlack(g, Path(stack), t, t');
  }

  /** The stretch of the stack from the gray target up, closed by the back entry. */
  lemma BackCycle(g: Graph, stack: seq<Frame>, q: nat, cycle: seq<Node>)
    requires stack != [] && StackIsWalk(g, stack) && NoRepeats(Path(stack))
    requires IsEntry(g, TopEntry(stack))
    requires q < |stack| && Path(stack)[q] == Target(g, TopEntry(stack))
    requires cycle == Path(stack)[q..] + [Path(stack)[q]]
    ensures SimpleCycle(g, cycle) && Closes(g, cycle, TopEntry(stack))
  {
    forall i | 0 < i < |cycle|
      ensures Edge(g, cycle[i - 1], cycle[i])
    {
      assert cycle[i - 1] == stack[q + i - 1].node;
      if i < |cycle| - 1 {
        assert cycle[i] == stack[q + i].node;
      }
    }
    assert cycle[..|cycle| - 1] == Path(stack)[q..];
  }

  /** Graying a top node that is already gray changes nothing. */
  lemma RegrayingIsIdle(color: map<Node, Color>, stack: seq<Frame>, order: seq<Node>)
    requires ColorsAgree(color, Path(stack), order)
    ensures Grayed(color, stack) == color
  {
    if stack != [] {
      var node := stack[|stack| - 1].node;
      assert Path(stack)[|stack| - 1] == node && node in Path(stack);
      assert ColorOf(color, node) == Gray;
    }
  }

  /** Examining an entry to a gray node. */
  lemma StepToGray(g: Graph, color: map<Node, Color>, parent: map<Node, Option<Node>>,
                   stack: seq<Frame>, cycles: seq<seq<Node>>, t: Trace, q: nat, cycle: seq<Node>)
    requires stack != [] && Inv(g, color, parent, stack, cycles, t)
    requires IsEntry(g, TopEntry(stack))
    requires q < |stack| && Path(stack)[q] == Target(g, TopEntry(stack))
    requires cycle == Path(stack)[q..] + [Path(stack)[q]]
    ensures Inv(g, color, parent, Advanced(stack), cycles + [cycle],
                t.(examined := t.examined + [TopEntry(stack)], backs := t.backs + [TopEntry(stack)]))
  {
    var t' := t.(examined := t.examined + [TopEntry(stack)], backs := t.backs + [TopEntry(stack)]);
    assert Path(Advanced(stack)) == Path(stack);
    assert Path(stack)[|stack| - 1] in Path(stack) && Path(stack)[q] in Path(stack);
    TopEntryIsNew(g, stack, t);
    AdvanceExamined(g, stack, t, true);
    AdvanceGray(g, stack, t, t');
    AdvanceBlack(g, Path(stack), t, t');
    BackCycle(g, stack, q, cycle);
  }

  /** Examining an entry to a white node, which goes on top of the stack. */
  lemma StepToWhite(g: Graph, color: map<Node, Color>, parent: map<Node, Option<Node>>,
                    stack: seq<Frame>, cycles: seq<seq<Node>>, t: Trace, nbr: Node)
    requires stack != [] && Inv(g, color, parent, stack, cycles, t)
    requires IsEntry(g, TopEntry(stack)) && nbr == Target(g, TopEntry(stack))
    requires nbr !in Path(stack) && nbr !in t.order
    ensures Inv(g, color[nbr := Gray], parent[nbr := Some(TopEntry(stack).node)],
                Advanced(stack) + [Frame(nbr, 0)], cycles, t.(examined := t.examined + [TopEntry(stack)]))
  {
    var pushed := Advanced(stack) + [Frame(nbr, 0)];
    var t' := t.(examined := t.examined + [TopEntry(stack)]);
    assert Path(pushed) == Path(stack) + [nbr];
    assert Path(stack)[|stack| - 1] in Path(stack);
    PushColors(color, Path(stack), t.order, nbr);
    PushParents(parent, Path(stack), nbr);
    TopEntryIsNew(g, stack, t);
    AdvanceExamined(g, stack, t, false);
    PushExamined(g, Advanced(stack), t', nbr);
    PushGray(g, stack, t, t', nbr);
    PushBlack(g, Path(stack), t, t', nbr);
  }

  lemma PushColors(color: map<Node, Color>, path: seq<Node>, order: seq<Node>, nbr: Node)
    requires ColorsAgree(color, path, order)
    requires nbr !in path && nbr !in order
    ensures ColorsAgree(color[nbr := Gray], path + [nbr], order)
  {
    forall n
      ensures ColorOf(color[nbr := Gray], n) ==
              if n in order then Black else if n in path + [nbr] then Gray else White
    {
      assert ColorOf(color, n) == if n in order then Black else if n in path then Gray else White;
    }
  }

  lemma PushParents(parent: map<Node, Option<Node>>, path: seq<Node>, nbr: Node)
    requires path != [] && ParentChain(parent, path) && nbr !in path
    ensures ParentChain(parent[nbr := Some(path[|path| - 1])], path + [nbr])
  {
    var longer, parent' := path + [nbr], parent[nbr := Some(path[|path| - 1])];
    forall i: nat | i < |longer|
      ensures ParentIsBelow(parent', longer, i)
    {
      if i < |path| {
        assert ParentIsBelow(parent, path, i);
        assert longer[i] == path[i] && path[i] in path;
        assert i > 0 ==> longer[i - 1] == path[i - 1];
      } else {
        assert longer[i] == nbr && longer[i - 1] == path[|path| - 1];
      }
    }
  }

  lemma PushExamined(g: Graph, stack: seq<Frame>, t: Trace, nbr: Node)
    requires ExaminedOnce(g, stack, t)
    ensures ExaminedOnce(g, stack + [Frame(nbr, 0)], t)
  {
    forall e
      ensures Passed(g, stack + [Frame(nbr, 0)], t.order, e) <==> Passed(g, stack, t.order, e)
    {
      PushPasses(g, stack, nbr, t.order, e);
    }
  }

  lemma PushPasses(g: Graph, stack: seq<Frame>, nbr: Node, order: seq<Node>, e: Entry)
    ensures Passed(g, stack + [Frame(nbr, 0)], order, e) <==> Passed(g, stack, order, e)
  {
    var pushed := stack + [Frame(nbr, 0)];
    if p :| 0 <= p < |stack| && stack[p].node == e.node && e.index < stack[p].next {
      assert pushed[p] == stack[p];
    }
    if p :| 0 <= p < |pushed| && pushed[p].node == e.node && e.index < pushed[p].next {
      assert p < |stack| && stack[p] == pushed[p];
    }
  }

  lemma PushBlack(g: Graph, path: seq<Node>, t: Trace, t': Trace, nbr: Node)
    requires BlackEntries(g, path, t)
    requires t'.order == t.order && t'.backs == t.backs
    ensures BlackEntries(g, path + [nbr], t')
  {
    forall k: nat, i: nat | k < |t'.order| && i < |Neighbors(g, t'.order[k])|
      ensures BlackEntry(g, path + [nbr], t', k, i)
    {
      assert BlackEntry(g, path, t, k, i);
    }
  }

  lemma OldEntryBelowPush(g: Graph, stack: seq<Frame>, t: Trace, t': Trace, nbr: Node, p: nat, i: nat)
    requires stack != [] && IsEntry(g, TopEntry(stack))
    requires p < |stack| && i < stack[p].next <= |Neighbors(g, stack[p].node)|
    requires GrayEntry(g, stack, t, p, i)
    requires t'.order == t.order && t'.backs == t.backs
    ensures GrayEntry(g, Advanced(stack) + [Frame(nbr, 0)], t', p, i)
  {
    var pushed := Advanced(stack) + [Frame(nbr, 0)];
    assert IsTreeEntry(pushed, p, i) <==> IsTreeEntry(stack, p, i);
    assert Path(pushed)[..p + 1] == Path(stack)[..p + 1];
  }

  lemma PushWalk(g: Graph, stack: seq<Frame>, nbr: Node)
    requires stack != [] && StackIsWalk(g, stack) && IsEntry(g, TopEntry(stack)) && nbr == Target(g, TopEntry(stack))
    ensures StackIsWalk(g, Advanced(stack) + [Frame(nbr, 0)])
  {
  }

  lemma PushGray(g: Graph, stack: seq<Frame>, t: Trace, t': Trace, nbr: Node)
    requires stack != [] && StackIsWalk(g, stack) && GrayEntries(g, stack, t)
    requires IsEntry(g, TopEntry(stack)) && TopEntry(stack) !in t.backs
    requires nbr == Target(g, TopEntry(stack))
    requires t'.order == t.order && t'.backs == t.backs
    ensures StackIsWalk(g, Advanced(stack) + [Frame(nbr, 0)])
    ensures GrayEntries(g, Advanced(stack) + [Frame(nbr, 0)], t')
  {
    var top, pushed := |stack| - 1, Advanced(stack) + [Frame(nbr, 0)];
    PushWalk(g, stack, nbr);
    forall p: nat, i: nat | p < |pushed| && i < pushed[p].next
      ensures GrayEntry(g, pushed, t', p, i)
    {
      assert p <= top && pushed[p].node == stack[p].node;
      if !(p == top && i == stack[top].next) {
        assert GrayEntry(g, stack, t, p, i);
        OldEntryBelowPush(g, stack, t, t', nbr, p, i);
      }
    }
  }

  /** The top node has no entry left: it turns black. */
  lemma StepPop(g: Graph, color: map<Node, Color>, parent: map<Node, Option<Node>>,
                stack: seq<Frame>, cycles: seq<seq<Node>>, t: Trace, node: Node)
    requires stack != [] && Inv(g, color, parent, stack, cycles, t)
    requires node == TopEntry(stack).node && TopEntry(stack).index == |Neighbors(g, node)|
    ensures Inv(g, color[node := Black], parent, stack[..|stack| - 1], cycles, t.(order := t.order + [node]))
  {
    var popped, t' := stack[..|stack| - 1], t.(order := t.order + [node]);
    assert Path(stack) == Path(popped) + [node];
    PopColors(color, Path(popped), t.order, node);
    PopParents(parent, Path(popped), node);
    PopBlack(g, stack, t, t', node);
    PopGray(g, stack, t, t', node);
    PopExamined(g, stack, t, t', node);
  }

  lemma PopColors(color: map<Node, Color>, path: seq<Node>, order: seq<Node>, node: Node)
    requires ColorsAgree(color, path + [node], order)
    ensures ColorsAgree(color[node := Black], path, order + [node])
  {
    assert (path + [node])[|path|] == node && node in path + [node];
    forall i | 0 <= i < |path|
      ensures path[i] != node && path[i] !in order
    {
      assert (path + [node])[i] == path[i] && path[i] in path + [node];
    }
    assert path == (path + [node])[..|path|];
    assert NoRepeats(order + [node]);
    forall n
      ensures ColorOf(color[node := Black], n) ==
              if n in order + [node] then Black else if n in path then Gray else White
    {
      assert ColorOf(color, n) == if n in order then Black else if n in path + [node] then Gray else White;
    }
  }

  lemma PopParents(parent: map<Node, Option<Node>>, path: seq<Node>, node: Node)
    requires ParentChain(parent, path + [node])
    ensures ParentChain(parent, path)
  {
    forall i: nat | i < |path|
      ensures ParentIsBelow(parent, path, i)
    {
      assert ParentIsBelow(parent, path + [node], i);
      assert (path + [node])[i] == path[i];
      assert i > 0 ==> (path + [node])[i - 1] == path[i - 1];
    }
  }

  lemma PopExamined(g: Graph, stack: seq<Frame>, t: Trace, t': Trace, node: Node)
    requires stack != [] && node == TopEntry(stack).node && TopEntry(stack).index == |Neighbors(g, node)|
    requires ExaminedOnce(g, stack, t)
    requires t' == t.(order := t.order + [node])
    ensures ExaminedOnce(g, stack[..|stack| - 1], t')
  {
    forall e
      ensures Passed(g, stack[..|stack| - 1], t'.order, e) <==> Passed(g, stack, t.order, e)
    {
      PopPasses(g, stack, t.order, node, e);
    }
  }

  lemma PopPasses(g: Graph, stack: seq<Frame>, order: seq<Node>, node: Node, e: Entry)
    requires stack != [] && node == TopEntry(stack).node && TopEntry(stack).index == |Neighbors(g, node)|
    ensures Passed(g, stack[..|stack| - 1], order + [node], e) <==> Passed(g, stack, order, e)
  {
    var top := |stack| - 1;
    if p :| 0 <= p < |stack| && stack[p].node == e.node && e.index < stack[p].next {
      assert p < top ==> stack[..top][p] == stack[p];
    }
    if e.node == node && IsEntry(g, e) {
      assert stack[top].node == e.node && e.index < stack[top].next;
    }
    if p :| 0 <= p < top && stack[..top][p].node == e.node && e.index < stack[..top][p].next {
      assert stack[p].node == e.node;
    }
  }

  lemma PopBlack(g: Graph, stack: seq<Frame>, t: Trace, t': Trace, node: Node)
    requires stack != [] && StackIsWalk(g, stack)
    requires node == TopEntry(stack).node && TopEntry(stack).index == |Neighbors(g, node)|
    requires forall n :: n in Path(stack) ==> n !in t.order
    requires BlackEntries(g, Path(stack), t) && GrayEntries(g, stack, t)
    requires t' == t.(order := t.order + [node])
    ensures BlackEntries(g, Path(stack[..|stack| - 1]), t')
  {
    var top := |stack| - 1;
    assert Path(stack) == Path(stack[..top]) + [node];
    forall k: nat, i: nat | k < |t'.order| && i < |Neighbors(g, t'.order[k])|
      ensures BlackEntry(g, Path(stack[..top]), t', k, i)
    {
      if k < |t.order| {
        assert BlackEntry(g, Path(stack), t, k, i);
        assert t'.order[..k] == t.order[..k];
      } else {
        assert GrayEntry(g, stack, t, top, i);
        assert t'.order[..k] == t.order;
        assert Path(stack)[..top + 1] == Path(stack);
      }
    }
  }

  lemma PopGray(g: Graph, stack: seq<Frame>, t: Trace, t': Trace, node: Node)
    requires stack != [] && StackIsWalk(g, stack) && GrayEntries(g, stack, t)
    requires node == TopEntry(stack).node
    requires t' == t.(order := t.order + [node])
    ensures StackIsWalk(g, stack[..|stack| - 1]) && GrayEntries(g, stack[..|stack| - 1], t')
  {
    var popped := stack[..|stack| - 1];
    forall p: nat, i: nat | p < |popped| && i < popped[p].next
      ensures GrayEntry(g, popped, t', p, i)
    {
      assert popped[p] == stack[p];
      assert GrayEntry(g, stack, t, p, i);
      if IsTreeEntry(stack, p, i) {
        assert Neighbors(g, stack[p].node)[i] == stack[p + 1].node;
      } else {
        assert Path(popped)[..p + 1] == Path(stack)[..p + 1];
      }
    }
  }

  // ---------------------------------------------------------------------------
  // The log of the search
  // ---------------------------------------------------------------------------

  /** What the stack, the trace and the cycles say of the progress of the search. */
  ghost function ProgressOf(stack: seq<Frame>, cycles: seq<seq<Node>>, t: Trace): Progress {
    Progress(Path(stack), t.order, t.examined, t.backs, cycles)
  }

  /** The log is depth-first and says the same. */
  ghost predicate LogAgrees(g: Graph, keys: seq<Node>, stack: seq<Frame>, cycles: seq<seq<Node>>, t: Trace, log: Log) {
    && IsDepthFirst(g, keys, log)
    && Replay(g, log) == ProgressOf(stack, cycles, t)
    && Settled(g, log, t.backs)
  }

  /** An allowed step of a settled node keeps the log in agreement. */
  lemma LogGrows(g: Graph, keys: seq<Node>, stack: seq<Frame>, cycles: seq<seq<Node>>, t: Trace, log: Log, ev: Event,
                 stack': seq<Frame>, cycles': seq<seq<Node>>, t': Trace)
    requires LogAgrees(g, keys, stack, cycles, t, log)
    requires Allowed(g, keys, ProgressOf(stack, cycles, t), ev)
    requires ev.Start? || IsSettled(g, ProgressOf(stack, cycles, t), t.backs, StepOf(ev))
    requires ProgressOf(stack', cycles', t') == After(g, ProgressOf(stack, cycles, t), ev)
    requires t.backs <= t'.backs
    ensures LogAgrees(g, keys, stack', cycles', t', log + [ev])
  {
    OneMoreEvent(g, keys, log, ev);
    SettledGrows(g, log, t.backs, ev, t'.backs);
  }

  /** An entry of the top node that was examined led back, or its target is finished. */
  lemma TopIsSettled(g: Graph, stack: seq<Frame>, cycles: seq<seq<Node>>, t: Trace)
    requires stack != [] && StackIsWalk(g, stack) && GrayEntries(g, stack, t) && ExaminedOnce(g, stack, t)
    requires NoRepeats(Path(stack)) && Path(stack)[|stack| - 1] !in t.order
    ensures IsSettled(g, ProgressOf(stack, cycles, t), t.backs, TopEntry(stack).node)
  {
    var node, top := TopEntry(stack).node, |stack| - 1;
    forall i: nat | Entry(node, i) in t.examined
      ensures IsEntry(g, Entry(node, i)) && (Entry(node, i) in t.backs || Target(g, Entry(node, i)) in t.order)
    {
      var p :| 0 <= p < |stack| && stack[p].node == node && i < stack[p].next;
      assert Path(stack)[p] == Path(stack)[top];
      assert GrayEntry(g, stack, t, top, i);
    }
  }

  /** The entries of the top node below its index were examined. */
  lemma EarlierExamined(g: Graph, stack: seq<Frame>, t: Trace, i: nat)
    requires stack != [] && ExaminedOnce(g, stack, t) && i < TopEntry(stack).index
    ensures Entry(TopEntry(stack).node, i) in t.examined
  {
    var top := |stack| - 1;
    assert stack[top].node == TopEntry(stack).node && i < stack[top].next;
    assert Passed(g, stack, t.order, Entry(TopEntry(stack).node, i));
  }

  /** The next entry of the top node may be looked at, or the node be finished if there is none. */
  lemma StepIsAllowed(g: Graph, keys: seq<Node>, stack: seq<Frame>, cycles: seq<seq<Node>>, t: Trace)
    requires stack != [] && ExaminedOnce(g, stack, t)
    requires NoRepeats(Path(stack)) && Path(stack)[|stack| - 1] !in t.order
    ensures var e, p := TopEntry(stack), ProgressOf(stack, cycles, t);
            && (IsEntry(g, e) ==> Allowed(g, keys, p, Look(e)))
            && (e.index == |Neighbors(g, e.node)| ==> Allowed(g, keys, p, Finish(e.node)))
  {
    TopEntryIsNew(g, stack, t);
    forall i: nat | i < TopEntry(stack).index
      ensures Entry(TopEntry(stack).node, i) in t.examined
    {
      EarlierExamined(g, stack, t, i);
    }
  }

  /** The top node may take its next step. */
  ghost predicate MayStep(g: Graph, keys: seq<Node>, stack: seq<Frame>, cycles: seq<seq<Node>>, t: Trace)
    requires stack != []
  {
    var e, p := TopEntry(stack), ProgressOf(stack, cycles, t);
    && IsSettled(g, p, t.backs, e.node)
    && (IsEntry(g, e) ==> Allowed(g, keys, p, Look(e)))
    && (e.index == |Neighbors(g, e.node)| ==> Allowed(g, keys, p, Finish(e.node)))
  }

  lemma TopIsGray(g: Graph, keys: seq<Node>, color: map<Node, Color>, parent: map<Node, Option<Node>>,
                  stack: seq<Frame>, cycles: seq<seq<Node>>, t: Trace)
    requires stack != [] && Inv(g, color, parent, stack, cycles, t)
    ensures MayStep(g, keys, stack, cycles, t)
  {
    assert Path(stack)[|stack| - 1] in Path(stack);
    TopIsSettled(g, stack, cycles, t);
    StepIsAllowed(g, keys, stack, cycles, t);
  }

  lemma LogFinishes(g: Graph, keys: seq<Node>, stack: seq<Frame>, cycles: seq<seq<Node>>, t: Trace, log: Log,
                    node: Node)
    requires stack != [] && MayStep(g, keys, stack, cycles, t) && LogAgrees(g, keys, stack, cycles, t, log)
    requires node == TopEntry(stack).node && TopEntry(stack).index == |Neighbors(g, node)|
    ensures LogAgrees(g, keys, stack[..|stack| - 1], cycles, t.(order := t.order + [node]), log + [Finish(node)])
  {
    assert Path(stack[..|stack| - 1]) == Front(Path(stack));
    LogGrows(g, keys, stack, cycles, t, log, Finish(node), stack[..|stack| - 1], cycles, t.(order := t.order + [node]));
  }

  lemma LogStarts(g: Graph, keys: seq<Node>, cycles: seq<seq<Node>>, t: Trace, log: Log, k: nat)
    requires LogAgrees(g, keys, [], cycles, t, log)
    requires k < |keys| && keys[k] !in t.order && forall i :: 0 <= i < k ==> keys[i] in t.order
    ensures LogAgrees(g, keys, [Frame(keys[k], 0)], cycles, t, log + [Start(keys[k])])
  {
    assert Path([]) == [] && Path([Frame(keys[k], 0)]) == [keys[k]] == [] + [keys[k]];
    LogGrows(g, keys, [], cycles, t, log, Start(keys[k]), [Frame(keys[k], 0)], cycles, t);
  }

  lemma PathOfPush(stack: seq<Frame>, nbr: Node)
    requires stack != []
    ensures Path(Advanced(stack) + [Frame(nbr, 0)]) == Path(stack) + [nbr]
  {
  }

  lemma LogWhite(g: Graph, keys: seq<Node>, stack: seq<Frame>, cycles: seq<seq<Node>>, t: Trace, log: Log, nbr: Node)
    requires stack != [] && MayStep(g, keys, stack, cycles, t) && LogAgrees(g, keys, stack, cycles, t, log)
    requires IsEntry(g, TopEntry(stack)) && nbr == Target(g, TopEntry(stack)) && nbr !in t.order && nbr !in Path(stack)
    ensures LogAgrees(g, keys, Advanced(stack) + [Frame(nbr, 0)], cycles,
                      t.(examined := t.examined + [TopEntry(stack)]), log + [Look(TopEntry(stack))])
  {
    PathOfPush(stack, nbr);
    assert After(g, ProgressOf(stack, cycles, t), Look(TopEntry(stack))) ==
           Progress(Path(stack) + [nbr], t.order, t.examined + [TopEntry(stack)], t.backs, cycles);
    LogGrows(g, keys, stack, cycles, t, log, Look(TopEntry(stack)), Advanced(stack) + [Frame(nbr, 0)], cycles,
             t.(examined := t.examined + [TopEntry(stack)]));
  }

  lemma LogBlack(g: Graph, keys: seq<Node>, stack: seq<Frame>, cycles: seq<seq<Node>>, t: Trace, log: Log)
    requires stack != [] && MayStep(g, keys, stack, cycles, t) && LogAgrees(g, keys, stack, cycles, t, log)
    requires IsEntry(g, TopEntry(stack)) && Target(g, TopEntry(stack)) in t.order
    ensures LogAgrees(g, keys, Advanced(stack), cycles, t.(examined := t.examined + [TopEntry(stack)]),
                      log + [Look(TopEntry(stack))])
  {
    assert Path(Advanced(stack)) == Path(stack);
    LogGrows(g, keys, stack, cycles, t, log, Look(TopEntry(stack)), Advanced(stack), cycles,
             t.(examined := t.examined + [TopEntry(stack)]));
  }

  lemma LogGray(g: Graph, keys: seq<Node>, stack: seq<Frame>, cycles: seq<seq<Node>>, t: Trace, log: Log,
                q: nat, cycle: seq<Node>)
    requires stack != [] && MayStep(g, keys, stack, cycles, t) && LogAgrees(g, keys, stack, cycles, t, log)
    requires IsEntry(g, TopEntry(stack)) && q < |stack| && Path(stack)[q] == Target(g, TopEntry(stack))
    requires NoRepeats(Path(stack)) && Path(stack)[q] !in t.order
    requires cycle == Path(stack)[q..] + [Path(stack)[q]]
    ensures LogAgrees(g, keys, Advanced(stack), cycles + [cycle],
                      t.(examined := t.examined + [TopEntry(stack)], backs := t.backs + [TopEntry(stack)]),
                      log + [Look(TopEntry(stack))])
  {
    assert Path(Advanced(stack)) == Path(stack);
    LookBack(g, ProgressOf(stack, cycles, t), TopEntry(stack), q);
    assert After(g, ProgressOf(stack, cycles, t), Look(TopEntry(stack))) ==
           Progress(Path(stack), t.order, t.examined + [TopEntry(stack)], t.backs + [TopEntry(stack)],
                    cycles + [cycle]);
    LogGrows(g, keys, stack, cycles, t, log, Look(TopEntry(stack)), Advanced(stack), cycles + [cycle],
             t.(examined := t.examined + [TopEntry(stack)], backs := t.backs + [TopEntry(stack)]));
  }

  // ---------------------------------------------------------------------------
  // The program
  // ---------------------------------------------------------------------------

  function Reversed<T>(s: seq<T>): (r: seq<T>)
    ensures |r| == |s|
    ensures forall i :: 0 <= i < |s| ==> r[i] == s[|s| - 1 - i]
  {
    if s == [] then [] else Reversed(s[1..]) + [s[0]]
  }

  /** Rebuilds a cycle by following parents from `node` until `nbr`. The walk never reaches a
      root first, and the result is the stack from `nbr` up, closed by `nbr`. */
  method CycleFromParents(parent: map<Node, Option<Node>>, node: Node, nbr: Node,
                          ghost path: seq<Node>, ghost q: nat)
    returns (cycle: seq<Node>)
    requires ParentChain(parent, path) && NoRepeats(path)
    requires q < |path| && path[q] == nbr && path[|path| - 1] == node
    ensures cycle == path[q..] + [nbr]
  {
    cycle := [nbr];
    var cur := Some(node);
    ghost var j := |path| - 1;
    while cur.Some? && cur.value != nbr
      invariant q <= j < |path| && cur == Some(path[j])
      invariant |cycle| == |path| - j
      invariant cycle[0] == nbr && forall i :: 0 < i < |cycle| ==> cycle[i] == path[|path| - i]
      decreases j
    {
      assert ParentIsBelow(parent, path, j);
      cycle := cycle + [cur.value];
      cur := if cur.value in parent then parent[cur.value] else None;
      j := j - 1;
    }
    cycle := Reversed(cycle + [nbr]);
  }

  /** How many nodes are still white, counting the ones the search can meet. */
  ghost function Unseen(g: Graph, path: seq<Node>, order: seq<Node>): set<Node> {
    Nodes(g) - (set n | n in path) - (set n | n in order)
  }

  /** Frames still to pop plus entries still to examine. */
  ghost function Remaining(g: Graph, stack: seq<Frame>): nat
    requires StackIsWalk(g, stack)
  {
    if stack == [] then 0
    else
      var top := |stack| - 1;
      1 + |Neighbors(g, stack[top].node)| - stack[top].next + Remaining(g, stack[..top])
  }

  /** The measure of the search: fewer white nodes, or as many and less left on the stack. */
  ghost predicate Shrinks(g: Graph, stack: seq<Frame>, order: seq<Node>, stack': seq<Frame>, order': seq<Node>)
    requires StackIsWalk(g, stack) && StackIsWalk(g, stack')
  {
    var u, u' := Unseen(g, Path(stack), order), Unseen(g, Path(stack'), order');
    u' < u || (u' == u && Remaining(g, stack') < Remaining(g, stack))
  }

  lemma AdvanceShrinks(g: Graph, stack: seq<Frame>, order: seq<Node>)
    requires stack != [] && StackIsWalk(g, stack) && StackIsWalk(g, Advanced(stack))
    ensures Shrinks(g, stack, order, Advanced(stack), order)
  {
    assert Path(Advanced(stack)) == Path(stack);
    assert Advanced(stack)[..|stack| - 1] == stack[..|stack| - 1];
  }

  lemma PushShrinks(g: Graph, stack: seq<Frame>, order: seq<Node>, nbr: Node)
    requires stack != [] && StackIsWalk(g, stack)
    requires StackIsWalk(g, Advanced(stack) + [Frame(nbr, 0)])
    requires nbr in Nodes(g) && nbr !in Path(stack) && nbr !in order
    ensures Shrinks(g, stack, order, Advanced(stack) + [Frame(nbr, 0)], order)
  {
    var path' := Path(Advanced(stack) + [Frame(nbr, 0)]);
    assert path' == Path(stack) + [nbr];
    assert nbr in Unseen(g, Path(stack), order) && nbr !in Unseen(g, path', order);
    assert forall n :: n in Path(stack) ==> n in path';
  }

  lemma PopShrinks(g: Graph, stack: seq<Frame>, order: seq<Node>, node: Node)
    requires stack != [] && StackIsWalk(g, stack) && StackIsWalk(g, stack[..|stack| - 1])
    requires node == TopEntry(stack).node
    ensures Shrinks(g, stack, order, stack[..|stack| - 1], order + [node])
  {
    assert Path(stack) == Path(stack[..|stack| - 1]) + [node];
    assert Unseen(g, Path(stack[..|stack| - 1]), order + [node]) == Unseen(g, Path(stack), order);
  }

  /** What the color of a node says about it. */
  lemma ColorMeans(color: map<Node, Color>, stack: seq<Frame>, order: seq<Node>, n: Node)
    requires ColorsAgree(color, Path(stack), order)
    ensures ColorOf(color, n) == White <==> n !in order && n !in Path(stack)
    ensures ColorOf(color, n) == Black <==> n in order
  {
  }

  /** A gray node is on the stack. */
  lemma PlaceOnStack(color: map<Node, Color>, stack: seq<Frame>, order: seq<Node>, n: Node) returns (q: nat)
    requires ColorsAgree(color, Path(stack), order) && ColorOf(color, n) == Gray
    ensures q < |stack| && Path(stack)[q] == n
  {
    assert n in Path(stack);
    q :| 0 <= q < |stack| && Path(stack)[q] == n;
  }

  // Each step with its measure, as the loop needs it.
  lemma AfterWhite(g: Graph, color: map<Node, Color>, parent: map<Node, Option<Node>>,
                   stack: seq<Frame>, cycles: seq<seq<Node>>, t: Trace, nbr: Node)
    requires stack != [] && Inv(g, color, parent, stack, cycles, t)
    requires IsEntry(g, TopEntry(stack)) && nbr == Target(g, TopEntry(stack)) && ColorOf(color, nbr) == White
    ensures var pushed := Advanced(stack) + [Frame(nbr, 0)];
            Inv(g, Grayed(color, pushed), parent[nbr := Some(TopEntry(stack).node)], pushed, cycles,
                t.(examined := t.examined + [TopEntry(stack)])) &&
            Shrinks(g, stack, t.order, pushed, t.order)
  {
    ColorMeans(color, stack, t.order, nbr);
    StepToWhite(g, color, parent, stack, cycles, t, nbr);
    PushShrinks(g, stack, t.order, nbr);
  }

  lemma AfterGray(g: Graph, color: map<Node, Color>, parent: map<Node, Option<Node>>,
                  stack: seq<Frame>, cycles: seq<seq<Node>>, t: Trace, q: nat, cycle: seq<Node>)
    requires stack != [] && Inv(g, color, parent, stack, cycles, t)
    requires IsEntry(g, TopEntry(stack))
    requires q < |stack| && Path(stack)[q] == Target(g, TopEntry(stack))
    requires cycle == Path(stack)[q..] + [Path(stack)[q]]
    ensures var next := Advanced(stack);
            Inv(g, Grayed(color, next), parent, next, cycles + [cycle],
                t.(examined := t.examined + [TopEntry(stack)], backs := t.backs + [TopEntry(stack)])) &&
            Shrinks(g, stack, t.order, next, t.order)
  {
    StepToGray(g, color, parent, stack, cycles, t, q, cycle);
    AdvanceShrinks(g, stack, t.order);
    RegrayingIsIdle(color, Advanced(stack), t.order);
  }

  lemma AfterBlack(g: Graph, color: map<Node, Color>, parent: map<Node, Option<Node>>,
                   stack: seq<Frame>, cycles: seq<seq<Node>>, t: Trace)
    requires stack != [] && Inv(g, color, parent, stack, cycles, t)
    requires IsEntry(g, TopEntry(stack)) && ColorOf(color, Target(g, TopEntry(stack))) == Black
    ensures var next := Advanced(stack);
            Inv(g, Grayed(color, next), parent, next, cycles, t.(examined := t.examined + [TopEntry(stack)])) &&
            Shrinks(g, stack, t.order, next, t.order)
  {
    ColorMeans(color, stack, t.order, Target(g, TopEntry(stack)));
    StepToBlack(g, color, parent, stack, cycles, t);
    AdvanceShrinks(g, stack, t.order);
    RegrayingIsIdle(color, Advanced(stack), t.order);
  }

  lemma AfterPop(g: Graph, color: map<Node, Color>, parent: map<Node, Option<Node>>,
                 stack: seq<Frame>, cycles: seq<seq<Node>>, t: Trace, node: Node)
    requires stack != [] && Inv(g, color, parent, stack, cycles, t)
    requires node == TopEntry(stack).node && TopEntry(stack).index == |Neighbors(g, node)|
    ensures var popped, t' := stack[..|stack| - 1], t.(order := t.order + [node]);
            && Inv(g, Grayed(color[node := Black], popped), parent, popped, cycles, t')
            && Shrinks(g, stack, t.order, popped, t'.order)
  {
    StepPop(g, color, parent, stack, cycles, t, node);
    PopShrinks(g, stack, t.order, node);
    RegrayingIsIdle(color[node := Black], stack[..|stack| - 1], t.order + [node]);
  }

  lemma LogAfterGray(g: Graph, keys: seq<Node>, color: map<Node, Color>, parent: map<Node, Option<Node>>,
                     stack: seq<Frame>, cycles: seq<seq<Node>>, t: Trace, log: Log, q: nat, cycle: seq<Node>)
    requires stack != [] && Inv(g, color, parent, stack, cycles, t) && LogAgrees(g, keys, stack, cycles, t, log)
    requires IsEntry(g, TopEntry(stack)) && q < |stack| && Path(stack)[q] == Target(g, TopEntry(stack))
    requires cycle == Path(stack)[q..] + [Path(stack)[q]]
    ensures LogAgrees(g, keys, Advanced(stack), cycles + [cycle],
                      t.(examined := t.examined + [TopEntry(stack)], backs := t.backs + [TopEntry(stack)]),
                      log + [Look(TopEntry(stack))])
  {
    TopIsGray(g, keys, color, parent, stack, cycles, t);
    assert Path(stack)[q] in Path(stack);
    LogGray(g, keys, stack, cycles, t, log, q, cycle);
  }

  /** The cycle that the gray target of the top entry closes. */
  method ClosedCycle(g: Graph, color: map<Node, Color>, parent: map<Node, Option<Node>>, stack: seq<Frame>,
                     ghost cycles: seq<seq<Node>>, nbr: Node, ghost t: Trace)
    returns (cycle: seq<Node>, ghost q: nat)
    requires stack != [] && ColorOf(color, nbr) == Gray && Inv(g, color, parent, stack, cycles, t)
    ensures q < |stack| && Path(stack)[q] == nbr && cycle == Path(stack)[q..] + [Path(stack)[q]]
  {
    q := PlaceOnStack(color, stack, t.order, nbr);
    cycle := CycleFromParents(parent, stack[|stack| - 1].node, nbr, Path(stack), q);
  }

  /** The target of the top entry is gray: the cycle it closes is reported. */
  method ReportCycle(g: Graph, color: map<Node, Color>, parent: map<Node, Option<Node>>, stack: seq<Frame>,
                     cycles0: seq<seq<Node>>, nbr: Node, ghost t: Trace, ghost keys: seq<Node>, ghost log: Log)
    returns (cycles: seq<seq<Node>>)
    requires stack != [] && IsEntry(g, TopEntry(stack))
    requires nbr == Target(g, TopEntry(stack)) && ColorOf(color, nbr) == Gray
    requires Inv(g, color, parent, stack, cycles0, t) && LogAgrees(g, keys, stack, cycles0, t, log)
    ensures var next := Advanced(stack);
            var t' := t.(examined := t.examined + [TopEntry(stack)], backs := t.backs + [TopEntry(stack)]);
            && Inv(g, Grayed(color, next), parent, next, cycles, t')
            && LogAgrees(g, keys, next, cycles, t', log + [Look(TopEntry(stack))])
            && Shrinks(g, stack, t.order, next, t.order)
  {
    ghost var q;
    var cycle;
    cycle, q := ClosedCycle(g, color, parent, stack, cycles0, nbr, t);
    AfterGray(g, color, parent, stack, cycles0, t, q, cycle);
    LogAfterGray(g, keys, color, parent, stack, cycles0, t, log, q, cycle);
    cycles := cycles0 + [cycle];
  }

  /** Examines the next entry of the node on top of the stack: pushes its target, reports a
      cycle, or moves on. */
  method Examine(g: Graph, color: map<Node, Color>, parent0: map<Node, Option<Node>>, stack0: seq<Frame>,
                 cycles0: seq<seq<Node>>, ghost t0: Trace, ghost keys: seq<Node>, ghost log: Log)
    returns (parent: map<Node, Option<Node>>, stack: seq<Frame>, cycles: seq<seq<Node>>, ghost t: Trace)
    requires stack0 != [] && IsEntry(g, TopEntry(stack0))
    requires Inv(g, color, parent0, stack0, cycles0, t0) && LogAgrees(g, keys, stack0, cycles0, t0, log)
    ensures stack != [] && stack[0].node == stack0[0].node
    ensures Inv(g, Grayed(color, stack), parent, stack, cycles, t)
    ensures LogAgrees(g, keys, stack, cycles, t, log + [Look(TopEntry(stack0))])
    ensures t.order == t0.order
    ensures Shrinks(g, stack0, t0.order, stack, t.order)
  {
    var Frame(node, idx) := stack0[|stack0| - 1];
    ghost var e := TopEntry(stack0);
    var next := stack0[|stack0| - 1 := Frame(node, idx + 1)];
    var nbr := Neighbors(g, node)[idx];
    assert next == Advanced(stack0) && e == Entry(node, idx) && nbr == Target(g, e);
    if ColorOf(color, nbr) == White {
      AfterWhite(g, color, parent0, stack0, cycles0, t0, nbr);
      ColorMeans(color, stack0, t0.order, nbr);
      TopIsGray(g, keys, color, parent0, stack0, cycles0, t0);
      LogWhite(g, keys, stack0, cycles0, t0, log, nbr);
      return parent0[nbr := Some(node)], next + [Frame(nbr, 0)], cycles0, t0.(examined := t0.examined + [e]);
    }
    if ColorOf(color, nbr) == Gray {
      cycles := ReportCycle(g, color, parent0, stack0, cycles0, nbr, t0, keys, log);
      return parent0, next, cycles, t0.(examined := t0.examined + [e], backs := t0.backs + [e]);
    }
    AfterBlack(g, color, parent0, stack0, cycles0, t0);
    ColorMeans(color, stack0, t0.order, nbr);
    TopIsGray(g, keys, color, parent0, stack0, cycles0, t0);
    LogBlack(g, keys, stack0, cycles0, t0, log);
    return parent0, next, cycles0, t0.(examined := t0.examined + [e]);
  }

  /** The stack is a walk from its bottom to its top. */
  lemma TopIsReachable(g: Graph, stack: seq<Frame>)
    requires stack != [] && StackIsWalk(g, stack)
    ensures Reachable(g, stack[0].node, stack[|stack| - 1].node)
  {
    assert Walk(g, Path(stack), stack[0].node, stack[|stack| - 1].node);
  }

  /** The search from `start` adds nodes reachable from it to what was finished, `start` last. */
  ghost predicate FinishesReachable(g: Graph, start: Node, order0: seq<Node>, stack: seq<Frame>, order: seq<Node>) {
    && order0 <= order
    && (if stack == [] then order0 < order && Last(order) == start else stack[0].node == start)
    && forall n :: n in order ==> n in order0 || Reachable(g, start, n)
  }

  lemma PopFinishesReachable(g: Graph, start: Node, order0: seq<Node>, stack: seq<Frame>, order: seq<Node>, node: Node)
    requires stack != [] && StackIsWalk(g, stack) && FinishesReachable(g, start, order0, stack, order)
    requires node == TopEntry(stack).node
    ensures FinishesReachable(g, start, order0, stack[..|stack| - 1], order + [node])
  {
    TopIsReachable(g, stack);
  }

  /** Searches everything reachable from the white node `start`. */
  method Explore(g: Graph, start: Node, color0: map<Node, Color>, parent0: map<Node, Option<Node>>,
                 cycles0: seq<seq<Node>>, ghost t0: Trace, ghost keys: seq<Node>, ghost k: nat, ghost log0: Log)
    returns (color: map<Node, Color>, parent: map<Node, Option<Node>>, cycles: seq<seq<Node>>, ghost t: Trace,
             ghost log: Log)
    requires Inv(g, color0, parent0, [], cycles0, t0) && LogAgrees(g, keys, [], cycles0, t0, log0)
    requires start in Nodes(g) && ColorOf(color0, start) == White
    requires k < |keys| && keys[k] == start && forall i :: 0 <= i < k ==> keys[i] in t0.order
    ensures Inv(g, color, parent, [], cycles, t) && LogAgrees(g, keys, [], cycles, t, log)
    ensures FinishesReachable(g, start, t0.order, [], t.order)
  {
    color, parent, cycles, t := color0, parent0, cycles0, t0;
    var stack := [Frame(start, 0)];
    parent := parent[start := None];
    StartInv(g, color, parent0, cycles, t, start);
    assert Path([]) == [];
    LogStarts(g, keys, cycles, t, log0, k);
    log := log0 + [Start(start)];
    while stack != []
      invariant Inv(g, Grayed(color, stack), parent, stack, cycles, t)
      invariant LogAgrees(g, keys, stack, cycles, t, log)
      invariant FinishesReachable(g, start, t0.order, stack, t.order)
      decreases Unseen(g, Path(stack), t.order), Remaining(g, stack)
    {
      var Frame(node, idx) := stack[|stack| - 1];
      color := color[node := Gray];
      if idx < |Neighbors(g, node)| {
        ghost var e := TopEntry(stack);
        parent, stack, cycles, t := Examine(g, color, parent, stack, cycles, t, keys, log);
        log := log + [Look(e)];
      } else {
        AfterPop(g, color, parent, stack, cycles, t, node);
        TopIsGray(g, keys, color, parent, stack, cycles, t);
        LogFinishes(g, keys, stack, cycles, t, log, node);
        PopFinishesReachable(g, start, t0.order, stack, t.order, node);
        color := color[node := Black];
        stack := stack[..|stack| - 1];
        t, log := t.(order := t.order + [node]), log + [Finish(node)];
      }
    }
  }

  lemma StartInv(g: Graph, color: map<Node, Color>, parent: map<Node, Option<Node>>,
                 cycles: seq<seq<Node>>, t: Trace, start: Node)
    requires Inv(g, color, parent, [], cycles, t)
    requires start in Nodes(g) && ColorOf(color, start) == White
    ensures Inv(g, color[start := Gray], parent[start := None], [Frame(start, 0)], cycles, t)
  {
    assert Path([]) == [] && Path([Frame(start, 0)]) == [start];
    assert [] + [start] == [start] && [] + [Frame(start, 0)] == [Frame(start, 0)];
    PushColors(color, [], t.order, start);
    PushExamined(g, [], t, start);
    PushBlack(g, [], t, t, start);
  }

  /** `keys` lists the keys of the graph, each once: the iteration order of the dictionary. */
  ghost predicate KeyOrder(g: Graph, keys: seq<Node>) {
    NoRepeats(keys) && forall n :: n in keys <==> n in g
  }

  /** What a complete search is known to have done. */
  ghost predicate Complete(g: Graph, color: map<Node, Color>, cycles: seq<seq<Node>>, t: Trace) {
    // every node of the graph turned black, once
    && NoRepeats(t.order)
    && (set n | n in t.order) == Nodes(g)
    && (forall n :: ColorOf(color, n) == if n in Nodes(g) then Black else White)
    // every adjacency entry was examined, once
    && NoRepeats(t.examined)
    && (forall e :: e in t.examined <==> IsEntry(g, e))
    // the back entries are those whose target did not finish before their node
    && NoRepeats(t.backs)
    && (forall e :: e in t.backs <==> IsEntry(g, e) && !Before(t.order, Target(g, e), e.node))
    // one simple cycle is reported for each back entry, closed by it
    && CyclesMatch(g, cycles, t.backs)
  }

  /** With the stack empty, what is finished is closed under edges. */
  lemma FinishedIsClosed(g: Graph, t: Trace, u: Node, v: Node)
    requires BlackEntries(g, [], t) && u in t.order && Reachable(g, u, v)
    ensures v in t.order
  {
    var done := set n | n in t.order;
    forall a, b | a in done && Edge(g, a, b)
      ensures b in done
    {
      var k :| 0 <= k < |t.order| && t.order[k] == a;
      var i :| 0 <= i < |Neighbors(g, a)| && Neighbors(g, a)[i] == b;
      assert BlackEntry(g, [], t, k, i);
    }
    var p :| Walk(g, p, u, v);
    ClosedUnderWalks(g, done, p, u, v);
  }

  /** After the turn of one more key the finished nodes are those reachable from the keys so far. */
  lemma TurnReaches(g: Graph, t0: Trace, t: Trace, sources: seq<Node>, start: Node, n: Node)
    requires BlackEntries(g, [], t) && t0.order <= t.order && start in t.order
    requires forall m :: m in t0.order <==> ReachableFrom(g, sources, m)
    requires forall m :: m in t.order ==> m in t0.order || Reachable(g, start, m)
    ensures n in t.order <==> ReachableFrom(g, sources + [start], n)
  {
    OneMoreSource(g, sources, start, n);
    if Reachable(g, start, n) {
      FinishedIsClosed(g, t, start, n);
    }
  }

  lemma TurnsGrow(g: Graph, keys: seq<Node>, k: nat, t0: Trace, t: Trace, cuts: seq<nat>)
    requires k < |keys| && InTurns(g, keys[..k], t0.order, cuts)
    requires BlackEntries(g, [], t) && t0.order <= t.order && keys[k] in t.order
    requires forall m :: m in t.order ==> m in t0.order || Reachable(g, keys[k], m)
    requires |t0.order| < |t.order| ==> Last(t.order) == keys[k]
    ensures InTurns(g, keys[..k + 1], t.order, cuts + [|t.order|])
  {
    assert keys[..k][..k] == keys[..k] && t0.order[..cuts[k]] == t0.order;
    forall n
      ensures n in t.order <==> ReachableFrom(g, keys[..k] + [keys[k]], n)
    {
      TurnReaches(g, t0, t, keys[..k], keys[k], n);
    }
    assert keys[..k + 1] == keys[..k] + [keys[k]];
    OneMoreTurn(g, keys[..k], keys[k], t0.order, t.order, cuts);
  }

  /** The search is the depth-first search of the graph, in the order of its keys, that the log is. */
  ghost predicate IsLogged(g: Graph, keys: seq<Node>, cycles: seq<seq<Node>>, t: Trace, log: Log) {
    && IsDepthFirst(g, keys, log) && Ended(keys, Replay(g, log))
    && Replay(g, log) == ProgressOf([], cycles, t)
  }

  /** Finishing order, examined entries, back entries and cycles are determined by the graph and the
      order of its keys. */
  lemma SearchIsDetermined(g: Graph, keys: seq<Node>, cycles: seq<seq<Node>>, t: Trace, log: Log,
                           cycles': seq<seq<Node>>, t': Trace, log': Log)
    requires IsLogged(g, keys, cycles, t, log) && IsLogged(g, keys, cycles', t', log')
    ensures cycles == cycles' && t == t'
  {
    OneSearch(g, keys, log, log');
  }

  /** Between the turns of two keys. */
  ghost predicate BetweenTurns(g: Graph, keys: seq<Node>, k: nat, color: map<Node, Color>,
                               parent: map<Node, Option<Node>>, cycles: seq<seq<Node>>, t: Trace, log: Log,
                               cuts: seq<nat>)
    requires k <= |keys|
  {
    && Inv(g, color, parent, [], cycles, t) && LogAgrees(g, keys, [], cycles, t, log)
    && InTurns(g, keys[..k], t.order, cuts)
    && forall j :: 0 <= j < k ==> keys[j] in t.order
  }

  lemma BeforeTheFirstTurn(g: Graph, keys: seq<Node>)
    ensures BetweenTurns(g, keys, 0, map[], map[], [], Trace([], [], []), [], [0])
  {
    assert Path([]) == [];
  }

  /** The turn of a key that is black already. */
  lemma IdleTurn(g: Graph, keys: seq<Node>, k: nat, color: map<Node, Color>, parent: map<Node, Option<Node>>,
                 cycles: seq<seq<Node>>, t: Trace, log: Log, cuts: seq<nat>)
    requires k < |keys| && BetweenTurns(g, keys, k, color, parent, cycles, t, log, cuts)
    requires ColorOf(color, keys[k]) != White
    ensures BetweenTurns(g, keys, k + 1, color, parent, cycles, t, log, cuts + [|t.order|])
  {
    ColorMeans(color, [], t.order, keys[k]);
    assert Path([]) == [];
    TurnsGrow(g, keys, k, t, t, cuts);
  }

  /** The turn of a white key, from which the search went from `t0` to `t`. */
  lemma BusyTurn(g: Graph, keys: seq<Node>, k: nat, color: map<Node, Color>, parent: map<Node, Option<Node>>,
                 cycles: seq<seq<Node>>, t0: Trace, t: Trace, log: Log, cuts: seq<nat>)
    requires k < |keys| && InTurns(g, keys[..k], t0.order, cuts) && forall j :: 0 <= j < k ==> keys[j] in t0.order
    requires Inv(g, color, parent, [], cycles, t) && LogAgrees(g, keys, [], cycles, t, log)
    requires FinishesReachable(g, keys[k], t0.order, [], t.order)
    ensures BetweenTurns(g, keys, k + 1, color, parent, cycles, t, log, cuts + [|t.order|])
  {
    assert Path([]) == [] && keys[k] in t.order;
    TurnsGrow(g, keys, k, t0, t, cuts);
  }

  /** The outer loop: a turn for each key. */
  method SearchAll(g: Graph, keys: seq<Node>)
    returns (cycles: seq<seq<Node>>, color: map<Node, Color>, parent: map<Node, Option<Node>>,
             ghost t: Trace, ghost log: Log, ghost cuts: seq<nat>)
    requires KeyOrder(g, keys)
    ensures BetweenTurns(g, keys, |keys|, color, parent, cycles, t, log, cuts)
  {
    cycles, color, parent := [], map[], map[];
    t, log, cuts := Trace([], [], []), [], [0];
    BeforeTheFirstTurn(g, keys);
    for i := 0 to |keys|
      invariant BetweenTurns(g, keys, i, color, parent, cycles, t, log, cuts)
    {
      if ColorOf(color, keys[i]) == White {
        ghost var t0 := t;
        color, parent, cycles, t, log := Explore(g, keys[i], color, parent, cycles, t, keys, i, log);
        BusyTurn(g, keys, i, color, parent, cycles, t0, t, log, cuts);
      } else {
        IdleTurn(g, keys, i, color, parent, cycles, t, log, cuts);
      }
      cuts := cuts + [|t.order|];
    }
  }

  lemma SearchIsLogged(g: Graph, keys: seq<Node>, color: map<Node, Color>, parent: map<Node, Option<Node>>,
                       cycles: seq<seq<Node>>, t: Trace, log: Log, cuts: seq<nat>)
    requires BetweenTurns(g, keys, |keys|, color, parent, cycles, t, log, cuts)
    ensures InTurns(g, keys, t.order, cuts)
    ensures LooksRise(t.examined) && Settled(g, log, t.backs) && IsLogged(g, keys, cycles, t, log)
  {
    assert keys[..|keys|] == keys && Path([]) == [];
    DepthFirstLooksRise(g, keys, log);
  }

  lemma CompleteAtEnd(g: Graph, color: map<Node, Color>, parent: map<Node, Option<Node>>,
                      cycles: seq<seq<Node>>, t: Trace)
    requires Inv(g, color, parent, [], cycles, t)
    requires forall n :: n in g ==> n in t.order
    ensures Complete(g, color, cycles, t)
  {
    forall n | n in Nodes(g)
      ensures n in t.order
    {
      if n !in g {
        var u, i :| u in g && 0 <= i < |g[u]| && g[u][i] == n;
        var k :| 0 <= k < |t.order| && t.order[k] == u;
        assert BlackEntry(g, [], t, k, i);
      }
    }
    forall e
      ensures e in t.backs <==> IsEntry(g, e) && !Before(t.order, Target(g, e), e.node)
    {
      if IsEntry(g, e) {
        var k :| 0 <= k < |t.order| && t.order[k] == e.node;
        assert BlackEntry(g, [], t, k, e.index);
        BeforeIsPrefix(t.order, Target(g, e), k);
      }
    }
  }

  lemma BeforeIsPrefix(order: seq<Node>, u: Node, k: nat)
    requires NoRepeats(order) && k < |order|
    ensures Before(order, u, order[k]) <==> u in order[..k]
  {
    if u in order[..k] {
      var j :| 0 <= j < k && order[..k][j] == u;
      assert order[j] == u;
    }
    if j, k' :| 0 <= j < k' < |order| && order[j] == u && order[k'] == order[k] {
      assert order[..k][j] == u;
    }
  }

  /** No cycle was reported exactly when the graph has none. */
  lemma CyclesDecide(g: Graph, color: map<Node, Color>, cycles: seq<seq<Node>>, t: Trace)
    requires Complete(g, color, cycles, t)
    ensures cycles == [] <==> Acyclic(g)
    ensures cycles == [] <==> ReverseTopological(g, t.order)
  {
    if cycles == [] {
      forall u, v | Edge(g, u, v)
        ensures Before(t.order, v, u)
      {
        var i :| 0 <= i < |Neighbors(g, u)| && Neighbors(g, u)[i] == v;
        assert Entry(u, i) !in t.backs;
      }
    } else {
      assert ClosedWalk(g, cycles[0]);
    }
    if ReverseTopological(g, t.order) {
      ReverseTopologicalIsAcyclic(g, t.order);
    }
  }

  /** An edge that closes no reported cycle leads to a node that finished earlier. */
  lemma UncutFalls(g: Graph, color: map<Node, Color>, cycles: seq<seq<Node>>, t: Trace, u: Node, v: Node)
    requires Complete(g, color, cycles, t) && Edge(g, u, v) && !ClosesOne(cycles, u, v)
    ensures Before(t.order, v, u)
  {
    var i :| 0 <= i < |Neighbors(g, u)| && Neighbors(g, u)[i] == v;
    forall k | 0 <= k < |t.backs|
      ensures t.backs[k] != Entry(u, i)
    {
      assert Closes(g, cycles[k], t.backs[k]);
    }
    assert Entry(u, i) !in t.backs && Target(g, Entry(u, i)) == v;
  }

  /** Every closed walk goes through the closing edge of some reported cycle. */
  lemma WalkIsCut(g: Graph, color: map<Node, Color>, cycles: seq<seq<Node>>, t: Trace, p: seq<Node>)
    requires Complete(g, color, cycles, t) && ClosedWalk(g, p)
    ensures IsCut(cycles, p)
  {
    if !IsCut(cycles, p) {
      forall i | 0 < i <= |p| - 1
        ensures Before(t.order, p[i], p[i - 1])
      {
        assert Edge(g, p[i - 1], p[i]) && !ClosesOne(cycles, p[i - 1], p[i]);
        UncutFalls(g, color, cycles, t, p[i - 1], p[i]);
      }
      WalkFalls(t.order, p, |p| - 1);
      assert false;
    }
  }

  /** Without the closing edges of the reported cycles the graph has no cycle. */
  lemma RestIsAcyclic(g: Graph, color: map<Node, Color>, cycles: seq<seq<Node>>, t: Trace, rest: Graph)
    requires Complete(g, color, cycles, t)
    requires forall u, v :: Edge(rest, u, v) ==> Edge(g, u, v) && !ClosesOne(cycles, u, v)
    ensures Acyclic(rest)
  {
    forall u, v | Edge(rest, u, v)
      ensures Before(t.order, v, u)
    {
      UncutFalls(g, color, cycles, t, u, v);
    }
    ReverseTopologicalIsAcyclic(rest, t.order);
  }

  /** The whole program. */
  method FindCycles(g: Graph, keys: seq<Node>)
    returns (cycles: seq<seq<Node>>, ghost color: map<Node, Color>, ghost t: Trace, ghost log: Log,
             ghost cuts: seq<nat>)
    requires KeyOrder(g, keys)
    ensures forall k :: 0 <= k < |cycles| ==> SimpleCycle(g, cycles[k])
    ensures cycles == [] <==> Acyclic(g)
    ensures cycles == [] <==> ReverseTopological(g, t.order)
    ensures forall p :: ClosedWalk(g, p) ==> IsCut(cycles, p)
    ensures Complete(g, color, cycles, t)
    ensures InTurns(g, keys, t.order, cuts)
    ensures LooksRise(t.examined) && Settled(g, log, t.backs)
    ensures IsLogged(g, keys, cycles, t, log)
  {
    var colors, parent;
    cycles, colors, parent, t, log, cuts := SearchAll(g, keys);
    color := colors;
    SearchIsLogged(g, keys, color, parent, cycles, t, log, cuts);
    CompleteAtEnd(g, color, parent, cycles, t);
    CyclesDecide(g, color, cycles, t);
    forall p | ClosedWalk(g, p)
      ensures IsCut(cycles, p)
    {
      WalkIsCut(g, color, cycles, t, p);
    }
  }

  // ---------------------------------------------------------------------------
  // Building the graph
  // ---------------------------------------------------------------------------

  /** The producers that `consumer` is paired with, in order. */
  ghost function Producers(edges: seq<(Node, Node)>, consumer: Node): seq<Node> {
    if edges == [] then []
    else
      var rest := Producers(edges[..|edges| - 1], consumer);
      if edges[|edges| - 1].0 == consumer then rest + [edges[|edges| - 1].1] else rest
  }

  lemma {:induction false} ProducersAreEdges(edges: seq<(Node, Node)>, c: Node, p: Node)
    ensures p in Producers(edges, c) <==> (c, p) in edges
  {
    if edges != [] {
      var rest := edges[..|edges| - 1];
      ProducersAreEdges(rest, c, p);
      assert edges == rest + [edges[|edges| - 1]];
    }
  }

  /** Some edge among them has the consumer. */
  ghost predicate IsConsumer(edges: seq<(Node, Node)>, c: Node) {
    exists i :: 0 <= i < |edges| && edges[i].0 == c
  }

  /** The keys are in the order of their first edges: a later key has no edge before the first one of
      an earlier key. */
  ghost predicate FirstSeenOrder(edges: seq<(Node, Node)>, keys: seq<Node>) {
    forall i, j, q :: 0 <= i < j < |keys| && 0 <= q < |edges| && edges[q].0 == keys[j] ==>
      IsConsumer(edges[..q], keys[i])
  }

  /** The graph groups the edges by consumer, in order, and lists the consumers as they first occur. */
  ghost predicate Grouped(edges: seq<(Node, Node)>, g: Graph, keys: seq<Node>) {
    && KeyOrder(g, keys)
    && (forall c :: c in g <==> IsConsumer(edges, c))
    && (forall c :: Neighbors(g, c) == Producers(edges, c))
    && FirstSeenOrder(edges, keys)
  }

  lemma OneMoreEdge(edges: seq<(Node, Node)>, e: (Node, Node), c: Node)
    ensures IsConsumer(edges + [e], c) <==> IsConsumer(edges, c) || c == e.0
    ensures Producers(edges + [e], c) == Producers(edges, c) + if e.0 == c then [e.1] else []
  {
    var edges' := edges + [e];
    assert edges'[..|edges'| - 1] == edges;
    if i :| 0 <= i < |edges| && edges[i].0 == c {
      assert edges'[i].0 == c;
    }
    assert edges'[|edges|] == e;
  }

  lemma OrderGrows(edges: seq<(Node, Node)>, keys: seq<Node>, e: (Node, Node), keys': seq<Node>)
    requires FirstSeenOrder(edges, keys) && (forall c :: c in keys <==> IsConsumer(edges, c))
    requires keys' == if e.0 in keys then keys else keys + [e.0]
    ensures FirstSeenOrder(edges + [e], keys')
  {
    var edges' := edges + [e];
    forall i, j, q | 0 <= i < j < |keys'| && 0 <= q < |edges'| && edges'[q].0 == keys'[j]
      ensures IsConsumer(edges'[..q], keys'[i])
    {
      if q < |edges| {
        assert edges'[..q] == edges[..q] && edges[q].0 == keys'[j] && IsConsumer(edges, keys'[j]);
      } else {
        assert edges'[..q] == edges && keys'[i] in keys;
      }
    }
  }

  lemma GroupGrows(edges: seq<(Node, Node)>, g: Graph, keys: seq<Node>, e: (Node, Node), g': Graph, keys': seq<Node>)
    requires Grouped(edges, g, keys)
    requires keys' == (if e.0 in g then keys else keys + [e.0]) && g' == g[e.0 := Neighbors(g, e.0) + [e.1]]
    ensures Grouped(edges + [e], g', keys')
  {
    OrderGrows(edges, keys, e, keys');
    forall c
      ensures c in g' <==> IsConsumer(edges + [e], c)
      ensures Neighbors(g', c) == Producers(edges + [e], c)
    {
      OneMoreEdge(edges, e, c);
    }
  }

  /** Groups the edges by consumer; a consumer is a key from its first edge on. */
  method BuildGraph(edges: seq<(Node, Node)>) returns (g: Graph, keys: seq<Node>)
    ensures Grouped(edges, g, keys)
    ensures forall c, p :: Edge(g, c, p) <==> (c, p) in edges
  {
    g, keys := map[], [];
    for i := 0 to |edges|
      invariant Grouped(edges[..i], g, keys)
    {
      assert edges[..i + 1] == edges[..i] + [edges[i]];
      var (consumer, producer) := edges[i];
      ghost var g0, keys0 := g, keys;
      if consumer !in g {
        keys := keys + [consumer];
      }
      g := g[consumer := Neighbors(g, consumer) + [producer]];
      GroupGrows(edges[..i], g0, keys0, edges[i], g, keys);
    }
    assert edges[..|edges|] == edges;
    forall c, p
      ensures Edge(g, c, p) <==> (c, p) in edges
    {
      ProducersAreEdges(edges, c, p);
    }
  }

  /** Of two consumers one has the first edge. */
  lemma {:induction false} FirstEdges(edges: seq<(Node, Node)>, a: Node, b: Node, q: nat)
    requires a != b && q < |edges| && (edges[q].0 == a || edges[q].0 == b)
    ensures !(forall i :: 0 <= i < |edges| && edges[i].0 == b ==> IsConsumer(edges[..i], a)) ||
            !(forall i :: 0 <= i < |edges| && edges[i].0 == a ==> IsConsumer(edges[..i], b))
    decreases q
  {
    if p :| 0 <= p < q && (edges[p].0 == a || edges[p].0 == b) {
      FirstEdges(edges, a, b, p);
    } else if edges[q].0 == b {
      assert !IsConsumer(edges[..q], a);
    } else {
      assert !IsConsumer(edges[..q], b);
    }
  }

  /** What comes first after a common beginning comes later, if at all, in the other sequence. */
  lemma BeyondPrefix(keys: seq<Node>, keys': seq<Node>, k: nat, i: nat)
    requires NoRepeats(keys) && k < |keys| && k <= |keys'| && keys[..k] == keys'[..k]
    requires i < |keys'| && keys'[i] == keys[k]
    ensures i >= k
  {
    assert forall h :: 0 <= h < k ==> keys'[h] == keys'[..k][h] == keys[h];
  }

  lemma {:induction false} SameKeysUpTo(edges: seq<(Node, Node)>, keys: seq<Node>, keys': seq<Node>, k: nat)
    requires NoRepeats(keys) && NoRepeats(keys') && FirstSeenOrder(edges, keys) && FirstSeenOrder(edges, keys')
    requires forall c :: c in keys <==> c in keys'
    requires forall c :: c in keys ==> IsConsumer(edges, c)
    requires k <= |keys| && k <= |keys'|
    ensures keys[..k] == keys'[..k]
  {
    if k > 0 {
      SameKeysUpTo(edges, keys, keys', k - 1);
      var a, b := keys[k - 1], keys'[k - 1];
      if a != b {
        assert a in keys && b in keys';
        var i :| 0 <= i < |keys'| && keys'[i] == a;
        var j :| 0 <= j < |keys| && keys[j] == b;
        BeyondPrefix(keys, keys', k - 1, i);
        BeyondPrefix(keys', keys, k - 1, j);
        var q :| 0 <= q < |edges| && edges[q].0 == a;
        FirstEdges(edges, a, b, q);
      }
    }
  }

  lemma WithinPrefix(keys: seq<Node>, keys': seq<Node>, i: nat)
    requires NoRepeats(keys') && (forall c :: c in keys' ==> c in keys)
    requires |keys| <= |keys'| && keys == keys'[..|keys|] && i < |keys'|
    ensures i < |keys|
  {
    assert keys'[i] in keys';
    var j :| 0 <= j < |keys| && keys[j] == keys'[i];
    assert keys'[j] == keys[j];
  }

  lemma NotLonger(keys: seq<Node>, keys': seq<Node>)
    requires NoRepeats(keys') && (forall c :: c in keys' ==> c in keys)
    requires |keys| <= |keys'| && keys == keys'[..|keys|]
    ensures keys == keys'
  {
    if keys' != [] {
      WithinPrefix(keys, keys', |keys'| - 1);
    }
  }

  /** The edges determine the graph and the order of its keys. */
  lemma GroupIsDetermined(edges: seq<(Node, Node)>, g: Graph, keys: seq<Node>, g': Graph, keys': seq<Node>)
    requires Grouped(edges, g, keys) && Grouped(edges, g', keys')
    ensures g == g' && keys == keys'
  {
    forall c
      ensures (c in g <==> c in g') && (c in g ==> g[c] == g'[c])
    {
      assert Neighbors(g, c) == Neighbors(g', c);
    }
    SameKeysUpTo(edges, keys, keys', if |keys| <= |keys'| then |keys| else |keys'|);
    if |keys| <= |keys'| {
      assert keys[..|keys|] == keys;
      NotLonger(keys, keys');
    } else {
      assert keys'[..|keys'|] == keys';
      NotLonger(keys', keys);
    }
  }

  /** The cycles are what the depth-first search of the grouped edges reports. */
  ghost predicate IsReport(edges: seq<(Node, Node)>, cycles: seq<seq<Node>>) {
    exists g, keys, t, log :: Grouped(edges, g, keys) && IsLogged(g, keys, cycles, t, log)
  }

  /** The edges, in their order, determine the report. */
  lemma ReportIsDetermined(edges: seq<(Node, Node)>, cycles: seq<seq<Node>>, cycles': seq<seq<Node>>)
    requires IsReport(edges, cycles) && IsReport(edges, cycles')
    ensures cycles == cycles'
  {
    var g, keys, t, log :| Grouped(edges, g, keys) && IsLogged(g, keys, cycles, t, log);
    var g', keys', t', log' :| Grouped(edges, g', keys') && IsLogged(g', keys', cycles', t', log');
    GroupIsDetermined(edges, g, keys, g', keys');
    SearchIsDetermined(g, keys, cycles, t, log, cycles', t', log');
  }

  ghost predicate ClosedChain(edges: seq<(Node, Node)>, p: seq<Node>) {
    && |p| >= 2
    && p[0] == p[|p| - 1]
    && forall i :: 0 < i < |p| ==> (p[i - 1], p[i]) in edges
  }

  lemma ChainsAreWalks(edges: seq<(Node, Node)>, g: Graph, p: seq<Node>)
    requires forall u, v :: Edge(g, u, v) <==> (u, v) in edges
    ensures ClosedChain(edges, p) <==> ClosedWalk(g, p)
  {
  }

  lemma AllCut(edges: seq<(Node, Node)>, g: Graph, cycles: seq<seq<Node>>)
    requires forall p :: ClosedChain(edges, p) <==> ClosedWalk(g, p)
    requires forall p :: ClosedWalk(g, p) ==> IsCut(cycles, p)
    ensures forall p :: ClosedChain(edges, p) ==> IsCut(cycles, p)
  {
  }

  /** The cycle report of the analysis, stated on the edges themselves. */
  method ConsumesCycles(edges: seq<(Node, Node)>) returns (cycles: seq<seq<Node>>)
    ensures cycles == [] <==> !exists p: seq<Node> :: ClosedChain(edges, p)
    ensures forall k :: 0 <= k < |cycles| ==> ClosedChain(edges, cycles[k]) && NoRepeats(cycles[k][..|cycles[k]| - 1])
    ensures forall p :: ClosedChain(edges, p) ==> IsCut(cycles, p)
    ensures IsReport(edges, cycles)
  {
    var g, keys := BuildGraph(edges);
    ghost var color, t, log, cuts;
    cycles, color, t, log, cuts := FindCycles(g, keys);
    forall p
      ensures ClosedChain(edges, p) <==> ClosedWalk(g, p)
    {
      ChainsAreWalks(edges, g, p);
    }
    AllCut(edges, g, cycles);
  }
}
