/**
 * Unfolding a graph of objects into a finite tree under ceilings.
 *
 * A graph is a table: entry `i` is what object `i` decodes to, or `None` when it
 * is malformed. The graph may be cyclic and objects may be shared.
 */
module ObjectGraph {
  import opened Prelude

  /** One object: its own expansion cost and its references, in order. */
  datatype Object = Object(cost: nat, children: seq<nat>)

  type Graph = seq<Option<Object>>

  datatype Ceilings = Ceilings(nodes: nat, levels: nat, bytes: nat)

  ghost predicate Present(g: Graph, reference: nat) {
    reference < |g| && g[reference].Some?
  }

  /** A finite tree of references. */
  datatype Tree = Tree(reference: nat, children: seq<Tree>)

  /** `t` is what its reference expands to when every reference below it is followed. */
  ghost predicate Unfolds(g: Graph, t: Tree) {
    Present(g, t.reference) && |t.children| == |g[t.reference].value.children| &&
    forall i :: 0 <= i < |t.children| ==>
      t.children[i].reference == g[t.reference].value.children[i] && Unfolds(g, t.children[i])
  }

  ghost function Nodes(t: Tree): nat { 1 + ForestNodes(t.children) }

  ghost function ForestNodes(f: seq<Tree>): nat {
    if f == [] then 0 else ForestNodes(f[..|f| - 1]) + Nodes(f[|f| - 1])
  }

  /** What the expansion of `t` is charged: every object once per path that reaches it. */
  ghost function Cost(g: Graph, t: Tree): nat {
    (if Present(g, t.reference) then g[t.reference].value.cost else 0) + ForestCost(g, t.children)
  }

  ghost function ForestCost(g: Graph, f: seq<Tree>): nat {
    if f == [] then 0 else ForestCost(g, f[..|f| - 1]) + Cost(g, f[|f| - 1])
  }

  /** No node of `t` lies deeper than `levels` levels. */
  ghost predicate Within(t: Tree, levels: int) {
    levels >= 1 && forall i :: 0 <= i < |t.children| ==> Within(t.children[i], levels - 1)
  }

  /** `t` is the expansion of `root`, and it respects every ceiling. */
  ghost predicate Expansion(g: Graph, root: nat, t: Tree, c: Ceilings) {
    t.reference == root && Unfolds(g, t) &&
    Nodes(t) <= c.nodes && Within(t, c.levels) && Cost(g, t) <= c.bytes
  }

  // ------------------------------------------------------- pending objects

  /** One pending object: its reference and the level it sits on. */
  datatype Slot = Slot(reference: nat, depth: nat)

  ghost predicate GrowsAt(g: Graph, s: Slot, t: Tree, levels: nat) {
    t.reference == s.reference && Unfolds(g, t) && Within(t, levels - s.depth + 1)
  }

  /** `f` expands the pending objects, one tree each, none deeper than `levels` allows. */
  ghost predicate Grows(g: Graph, stack: seq<Slot>, f: seq<Tree>, levels: nat) {
    |f| == |stack| && forall i :: 0 <= i < |f| ==> GrowsAt(g, stack[i], f[i], levels)
  }

  ghost predicate FitsBy(g: Graph, stack: seq<Slot>, f: seq<Tree>, expanded: nat, charged: nat, c: Ceilings) {
    Grows(g, stack, f, c.levels) && expanded + ForestNodes(f) <= c.nodes && charged + ForestCost(g, f) <= c.bytes
  }

  /** The pending objects expand to trees that fit in what the ceilings leave. */
  ghost predicate Fits(g: Graph, stack: seq<Slot>, expanded: nat, charged: nat, c: Ceilings) {
    exists f :: FitsBy(g, stack, f, expanded, charged, c)
  }

  ghost function Slots(refs: seq<nat>, depth: nat): (slots: seq<Slot>)
    ensures |slots| == |refs|
  {
    seq(|refs|, i requires 0 <= i < |refs| => Slot(refs[i], depth))
  }

  lemma {:induction false} ForestNodesConcat(a: seq<Tree>, b: seq<Tree>)
    ensures ForestNodes(a + b) == ForestNodes(a) + ForestNodes(b)
  {
    if b == [] {
      assert a + b == a;
    } else {
      assert (a + b)[..|a + b| - 1] == a + b[..|b| - 1];
      ForestNodesConcat(a, b[..|b| - 1]);
    }
  }

  lemma {:induction false} ForestCostConcat(g: Graph, a: seq<Tree>, b: seq<Tree>)
    ensures ForestCost(g, a + b) == ForestCost(g, a) + ForestCost(g, b)
  {
    if b == [] {
      assert a + b == a;
    } else {
      assert (a + b)[..|a + b| - 1] == a + b[..|b| - 1];
      ForestCostConcat(g, a, b[..|b| - 1]);
    }
  }

  lemma {:induction false} ForestNodesAtLeast(f: seq<Tree>)
    ensures ForestNodes(f) >= |f|
  {
    if f != [] { ForestNodesAtLeast(f[..|f| - 1]); }
  }

  lemma SingletonForest(g: Graph, t: Tree)
    ensures ForestNodes([t]) == Nodes(t) && ForestCost(g, [t]) == Cost(g, t)
  {
    assert [t][..0] == [];
  }

  /** A pending object fits exactly when it decodes, is shallow enough, and its children fit in its place. */
  lemma FitsStep(g: Graph, rest: seq<Slot>, slot: Slot, expanded: nat, charged: nat, c: Ceilings)
    ensures Fits(g, rest + [slot], expanded, charged, c) <==>
      Present(g, slot.reference) && slot.depth <= c.levels &&
      var o := g[slot.reference].value;
      Fits(g, rest + Slots(o.children, slot.depth + 1), expanded + 1, charged + o.cost, c)
  {
    if f :| FitsBy(g, rest + [slot], f, expanded, charged, c) {
      FitsOpen(g, rest, slot, f, expanded, charged, c);
    }
    if Present(g, slot.reference) && slot.depth <= c.levels {
      var o := g[slot.reference].value;
      var open, cost := rest + Slots(o.children, slot.depth + 1), charged + o.cost;
      var count := expanded + 1;
      if f :| FitsBy(g, open, f, count, cost, c) {
        FitsClose(g, rest, slot, f, expanded, charged, c);
      }
    }
  }

  lemma FitsOpen(g: Graph, rest: seq<Slot>, slot: Slot, f: seq<Tree>, expanded: nat, charged: nat, c: Ceilings)
    requires FitsBy(g, rest + [slot], f, expanded, charged, c)
    ensures Present(g, slot.reference) && slot.depth <= c.levels
    ensures var o := g[slot.reference].value;
      Fits(g, rest + Slots(o.children, slot.depth + 1), expanded + 1, charged + o.cost, c)
  {
    var front, t := f[..|rest|], f[|rest|];
    GrowsSplit(g, rest, [slot], f, c.levels);
    assert f[|rest|..] == [t] && GrowsAt(g, [slot][0], [t][0], c.levels);
    var o := g[slot.reference].value;
    var slots := Slots(o.children, slot.depth + 1);
    GrowsChildren(g, slot, t, c.levels);
    GrowsConcat(g, rest, front, slots, t.children, c.levels);
    assert f == front + [t];
    FrontMeasures(g, front, t);
    assert FitsBy(g, rest + slots, front + t.children, expanded + 1, charged + o.cost, c);
  }

  lemma FitsClose(g: Graph, rest: seq<Slot>, slot: Slot, f: seq<Tree>, expanded: nat, charged: nat, c: Ceilings)
    requires Present(g, slot.reference) && slot.depth <= c.levels
    requires var o := g[slot.reference].value;
      FitsBy(g, rest + Slots(o.children, slot.depth + 1), f, expanded + 1, charged + o.cost, c)
    ensures Fits(g, rest + [slot], expanded, charged, c)
  {
    var front, t := f[..|rest|], Tree(slot.reference, f[|rest|..]);
    GrowsSplit(g, rest, Slots(g[slot.reference].value.children, slot.depth + 1), f, c.levels);
    GrowsParent(g, slot, t, c.levels);
    GrowsConcat(g, rest, front, [slot], [t], c.levels);
    assert f == front + t.children;
    FrontMeasures(g, front, t);
    assert FitsBy(g, rest + [slot], front + [t], expanded, charged, c);
  }

  lemma GrowsChildren(g: Graph, slot: Slot, t: Tree, levels: nat)
    requires GrowsAt(g, slot, t, levels)
    ensures Grows(g, Slots(g[slot.reference].value.children, slot.depth + 1), t.children, levels)
  {
  }

  lemma GrowsParent(g: Graph, slot: Slot, t: Tree, levels: nat)
    requires Present(g, slot.reference) && slot.depth <= levels && t.reference == slot.reference
    requires Grows(g, Slots(g[slot.reference].value.children, slot.depth + 1), t.children, levels)
    ensures GrowsAt(g, slot, t, levels)
  {
    var slots := Slots(g[slot.reference].value.children, slot.depth + 1);
    assert forall i :: 0 <= i < |slots| ==> GrowsAt(g, slots[i], t.children[i], levels);
  }

  /** Replacing a tree by its children gives up exactly its root. */
  lemma FrontMeasures(g: Graph, front: seq<Tree>, t: Tree)
    ensures ForestNodes(front + [t]) == ForestNodes(front + t.children) + 1
    ensures Present(g, t.reference) ==>
      ForestCost(g, front + [t]) == ForestCost(g, front + t.children) + g[t.reference].value.cost
  {
    SingletonForest(g, t);
    ForestNodesConcat(front, [t]);
    ForestNodesConcat(front, t.children);
    ForestCostConcat(g, front, [t]);
    ForestCostConcat(g, front, t.children);
  }

  lemma GrowsConcat(g: Graph, s1: seq<Slot>, f1: seq<Tree>, s2: seq<Slot>, f2: seq<Tree>, levels: nat)
    requires Grows(g, s1, f1, levels) && Grows(g, s2, f2, levels)
    ensures Grows(g, s1 + s2, f1 + f2, levels)
  {
  }

  lemma GrowsSplit(g: Graph, s1: seq<Slot>, s2: seq<Slot>, f: seq<Tree>, levels: nat)
    requires Grows(g, s1 + s2, f, levels)
    ensures Grows(g, s1, f[..|s1|], levels) && Grows(g, s2, f[|s1|..], levels)
  {
    assert forall i :: 0 <= i < |s1| ==> (s1 + s2)[i] == s1[i];
    assert forall i :: 0 <= i < |s2| ==> (s1 + s2)[|s1| + i] == s2[i];
  }

  /** No pending object is left: what was expanded fits if it is within the ceilings. */
  lemma NothingFits(g: Graph, expanded: nat, charged: nat, c: Ceilings)
    ensures Fits(g, [], expanded, charged, c) <==> expanded <= c.nodes && charged <= c.bytes
  {
    assert FitsBy(g, [], [], expanded, charged, c) <==> expanded <= c.nodes && charged <= c.bytes;
  }

  /** What fits leaves room for every pending object: the early rejection refuses nothing that fits. */
  lemma FitsRoom(g: Graph, stack: seq<Slot>, expanded: nat, charged: nat, c: Ceilings)
    requires Fits(g, stack, expanded, charged, c)
    ensures expanded + |stack| <= c.nodes && charged <= c.bytes
  {
    var f :| FitsBy(g, stack, f, expanded, charged, c);
    ForestNodesAtLeast(f);
  }

  lemma FitsStepRoom(g: Graph, rest: seq<Slot>, slot: Slot, expanded: nat, charged: nat, c: Ceilings)
    requires Fits(g, rest + [slot], expanded, charged, c)
    ensures Present(g, slot.reference) && slot.depth <= c.levels
    ensures var o := g[slot.reference].value;
      expanded + 1 + |rest| + |o.children| <= c.nodes && charged + o.cost <= c.bytes
  {
    FitsStep(g, rest, slot, expanded, charged, c);
    var o := g[slot.reference].value;
    FitsRoom(g, rest + Slots(o.children, slot.depth + 1), expanded + 1, charged + o.cost, c);
  }

  lemma RootFits(g: Graph, root: nat, c: Ceilings)
    ensures Fits(g, [Slot(root, 1)], 0, 0, c) <==> exists t :: Expansion(g, root, t, c)
  {
    var stack := [Slot(root, 1)];
    if f :| FitsBy(g, stack, f, 0, 0, c) {
      assert f == [f[0]] && GrowsAt(g, stack[0], f[0], c.levels);
      SingletonForest(g, f[0]);
      assert Expansion(g, root, f[0], c);
    }
    if t :| Expansion(g, root, t, c) {
      SingletonForest(g, t);
      assert GrowsAt(g, stack[0], t, c.levels);
      assert FitsBy(g, stack, [t], 0, 0, c);
    }
  }

  // ---------------------------------------------------------------- cycles

  /** A walk along references. Its last object need not be present. */
  ghost predicate IsPath(g: Graph, path: seq<nat>) {
    |path| >= 1 &&
    forall i :: 0 <= i < |path| - 1 ==> Present(g, path[i]) && path[i + 1] in g[path[i]].value.children
  }

  ghost predicate From(g: Graph, root: nat, path: seq<nat>) {
    IsPath(g, path) && path[0] == root
  }

  ghost predicate Repeats(path: seq<nat>) {
    exists i, j :: 0 <= i < j < |path| && path[i] == path[j]
  }

  ghost predicate Cyclic(g: Graph, root: nat) {
    exists path :: From(g, root, path) && Repeats(path)
  }

  ghost predicate AllPresent(g: Graph, root: nat) {
    forall path :: From(g, root, path) ==> Present(g, path[|path| - 1])
  }

  /** A reference has at most one expansion. */
  lemma {:induction false} UnfoldingUnique(g: Graph, t: Tree, u: Tree)
    requires Unfolds(g, t) && Unfolds(g, u) && t.reference == u.reference
    ensures t == u
  {
    forall i | 0 <= i < |t.children| ensures t.children[i] == u.children[i] {
      UnfoldingUnique(g, t.children[i], u.children[i]);
    }
  }

  lemma {:induction false} ChildIsSmaller(f: seq<Tree>, i: nat)
    requires i < |f|
    ensures Nodes(f[i]) <= ForestNodes(f)
  {
    if i < |f| - 1 { ChildIsSmaller(f[..|f| - 1], i); }
  }

  /** Every walk from the root of an expansion ends at the root of a smaller expansion. */
  lemma {:induction false} SubtreeAt(g: Graph, t: Tree, path: seq<nat>) returns (sub: Tree)
    requires Unfolds(g, t) && From(g, t.reference, path)
    ensures Unfolds(g, sub) && sub.reference == path[|path| - 1]
    ensures if |path| == 1 then sub == t else Nodes(sub) < Nodes(t)
    decreases |path|
  {
    if |path| == 1 {
      sub := t;
    } else {
      var i :| 0 <= i < |t.children| && t.children[i].reference == path[1];
      ChildIsSmaller(t.children, i);
      sub := SubtreeAt(g, t.children[i], path[1..]);
    }
  }

  lemma ExpansionIsAcyclic(g: Graph, t: Tree, path: seq<nat>)
    requires Unfolds(g, t) && From(g, t.reference, path)
    ensures !Repeats(path) && Present(g, path[|path| - 1])
  {
    var last := SubtreeAt(g, t, path);
    if i, j :| 0 <= i < j < |path| && path[i] == path[j] {
      var upper := SubtreeAt(g, t, path[..i + 1]);
      var lower := SubtreeAt(g, upper, path[i..j + 1]);
      UnfoldingUnique(g, upper, lower);
      assert false;
    }
  }

  ghost function Universe(n: nat): (s: set<nat>)
    ensures forall i :: i in s <==> 0 <= i < n
  {
    if n == 0 then {} else Universe(n - 1) + {n - 1}
  }

  ghost function Elements(path: seq<nat>): set<nat> {
    set x | x in path
  }

  /** The expansion of the end of a walk, when nothing reachable is missing or repeats. */
  ghost function Build(g: Graph, root: nat, path: seq<nat>): (t: Tree)
    requires AllPresent(g, root) && !Cyclic(g, root) && From(g, root, path)
    ensures t.reference == path[|path| - 1] && Unfolds(g, t)
    decreases Unvisited(g, path)
  {
    var last := path[|path| - 1];
    var refs := g[last].value.children;
    ExtendAll(g, root, path);
    Tree(last, seq(|refs|, i requires 0 <= i < |refs| =>
      assert Extends(g, root, path, refs[i]);
      Build(g, root, path + [refs[i]])))
  }

  ghost predicate Extends(g: Graph, root: nat, path: seq<nat>, next: nat) {
    From(g, root, path + [next]) && Unvisited(g, path + [next]) < Unvisited(g, path)
  }

  ghost function Unvisited(g: Graph, path: seq<nat>): set<nat> { Universe(|g|) - Elements(path) }

  lemma ExtendAll(g: Graph, root: nat, path: seq<nat>)
    requires AllPresent(g, root) && !Cyclic(g, root) && From(g, root, path)
    ensures Present(g, path[|path| - 1])
    ensures forall next :: next in g[path[|path| - 1]].value.children ==> Extends(g, root, path, next)
  {
    forall next | next in g[path[|path| - 1]].value.children ensures Extends(g, root, path, next) {
      ExtendPath(g, root, path, next);
    }
  }

  lemma ExtendPath(g: Graph, root: nat, path: seq<nat>, next: nat)
    requires AllPresent(g, root) && !Cyclic(g, root) && From(g, root, path)
    requires Present(g, path[|path| - 1]) && next in g[path[|path| - 1]].value.children
    ensures Extends(g, root, path, next)
  {
    var longer := path + [next];
    assert From(g, root, longer);
    assert longer[|longer| - 1] == next;
    assert forall i :: 0 <= i < |path| ==> longer[i] == path[i];
    assert !Repeats(longer);
    assert forall i :: 0 <= i < |path| ==> longer[i] != longer[|path|];
    assert next !in path && Elements(longer) == Elements(path) + {next};
    assert next in Unvisited(g, path) && next !in Unvisited(g, longer);
  }

  /** A root expands to a finite tree exactly when everything it reaches is present and no walk repeats. */
  lemma UnfoldsIffAcyclic(g: Graph, root: nat)
    ensures (exists t: Tree :: t.reference == root && Unfolds(g, t)) <==> AllPresent(g, root) && !Cyclic(g, root)
  {
    if t: Tree :| t.reference == root && Unfolds(g, t) {
      forall path | From(g, root, path) ensures !Repeats(path) && Present(g, path[|path| - 1]) {
        ExpansionIsAcyclic(g, t, path);
      }
    }
    if AllPresent(g, root) && !Cyclic(g, root) {
      assert From(g, root, [root]);
      var t := Build(g, root, [root]);
    }
  }

  /** The depth of an expansion is the number of objects on its longest reference chain. */
  lemma {:induction false} DepthIsChainLength(g: Graph, t: Tree, levels: nat)
    requires Unfolds(g, t)
    ensures Within(t, levels) <==> forall path :: From(g, t.reference, path) ==> |path| <= levels
    decreases t
  {
    if Within(t, levels) {
      forall path | From(g, t.reference, path) ensures |path| <= levels { ChainFits(g, t, path, levels); }
    } else {
      var path := LongChain(g, t, levels);
    }
  }

  lemma {:induction false} ChainFits(g: Graph, t: Tree, path: seq<nat>, levels: nat)
    requires Unfolds(g, t) && Within(t, levels) && From(g, t.reference, path)
    ensures |path| <= levels
    decreases t
  {
    if |path| > 1 {
      var refs := g[t.reference].value.children;
      assert Present(g, path[0]) && path[0 + 1] in g[path[0]].value.children;
      var i :| 0 <= i < |refs| && refs[i] == path[1];
      assert forall k :: 0 <= k < |path| - 1 ==> path[1..][k] == path[k + 1];
      assert From(g, t.children[i].reference, path[1..]);
      ChainFits(g, t.children[i], path[1..], levels - 1);
    }
  }

  lemma {:induction false} LongChain(g: Graph, t: Tree, levels: nat) returns (path: seq<nat>)
    requires Unfolds(g, t) && !Within(t, levels)
    ensures From(g, t.reference, path) && |path| > levels
    decreases t
  {
    path := [t.reference];
    if levels > 0 {
      var i :| 0 <= i < |t.children| && !Within(t.children[i], levels - 1);
      var rest := LongChain(g, t.children[i], levels - 1);
      path := path + rest;
      assert path[1] == rest[0];
      assert forall k :: 1 <= k < |path| ==> path[k] == rest[k - 1];
    }
  }

  /** Objects are charged once for every node of the expansion, so the byte ceiling also bounds the nodes. */
  lemma {:induction false} CostByNodes(g: Graph, t: Tree, least: nat)
    requires Unfolds(g, t) && forall i :: 0 <= i < |g| && g[i].Some? ==> g[i].value.cost >= least
    ensures Cost(g, t) >= least * Nodes(t)
    decreases t
  {
    ForestCostByNodes(g, t.children, least, t);
    Distribute(least, 1, ForestNodes(t.children));
  }

  lemma {:induction false} ForestCostByNodes(g: Graph, f: seq<Tree>, least: nat, parent: Tree)
    requires f <= parent.children && forall i :: 0 <= i < |f| ==> Unfolds(g, f[i])
    requires forall i :: 0 <= i < |g| && g[i].Some? ==> g[i].value.cost >= least
    ensures ForestCost(g, f) >= least * ForestNodes(f)
    decreases parent, |f|
  {
    if f != [] {
      var last := |f| - 1;
      assert f[last] == parent.children[last];
      ForestCostByNodes(g, f[..last], least, parent);
      CostByNodes(g, f[last], least);
      Distribute(least, ForestNodes(f[..last]), Nodes(f[last]));
    }
  }

  lemma Distribute(a: nat, b: nat, c: nat)
    ensures a * (b + c) == a * b + a * c
  {
  }
}
