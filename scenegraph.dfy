/** The base node of the scenegraph (_scenegraph_base.py), over an arena: nodes are named by
    their index in a sequence, and the child and parent lists hold such indices. A node may
    have at most one child (the base `_addChild` raises otherwise) and any number of parents,
    so one shape can be reached along several paths. `addChild` does not look for cycles: a
    node may be made its own child, or the child of its child (`SelfChildAccepted`,
    `CycleAccepted`), and `_traverse` then recurses without end. The traversal is therefore
    defined only on graphs that carry a rank witnessing that the child edges are acyclic
    (`Ranked`).

    Subclasses that are not part of this model refine three hooks; each node carries what
    its class supplies for them: its local transform `_xform`, the value of `_getSurface()`,
    and whether the class replaces `_traverse` altogether. The traversal result of such a
    replacing node is an abstract function `ext` of the node, the composite transform and
    the inherited surface. */
module Scenegraph {
  import opened LinAlg
  import opened Options

  /** A surface as `_getSurface()` returns it, by reference. */
  type SurfaceRef = nat

  datatype Node = Node(className: string, name: Option<string>, xform: Mat4,
                       surface: Option<SurfaceRef>, replacesTraverse: bool,
                       children: seq<nat>, parents: seq<nat>)

  /** `__str__`: the class name, followed by the quoted name when there is a non-empty one. */
  function Str(nd: Node): (r: string)
    ensures |nd.className| <= |r| && r[..|nd.className|] == nd.className
    ensures |r| == |nd.className| <==> nd.name.None? || nd.name.value == ""
    ensures nd.name.Some? && nd.name.value != "" ==> r[|nd.className|..] == " '" + nd.name.value + "'"
  {
    if nd.name.Some? && |nd.name.value| > 0 then nd.className + " '" + nd.name.value + "'"
    else nd.className
  }

  /** Two nodes of the same class print the same exactly when their names agree, with
      None and the empty name printing alike. */
  lemma StrDistinguishesNames(a: Node, b: Node)
    requires a.className == b.className
    ensures Str(a) == Str(b) <==>
      (if a.name.Some? && a.name.value != "" then b.name == a.name
       else b.name.None? || b.name.value == "")
  {
    var k := |a.className|;
    if Str(a) == Str(b) && a.name.Some? && a.name.value != "" {
      assert |Str(b)| != k;
      assert Str(a)[k..] == Str(b)[k..];
      var sa, sb := " '" + a.name.value + "'", " '" + b.name.value + "'";
      assert sa == sb;
      assert a.name.value == sa[2..|sa| - 1];
      assert b.name.value == sb[2..|sb| - 1];
    }
  }

  /** The message of the TypeError raised by `_addChild`. */
  function AlreadyHasChildMessage(parent: Node, child: Node): string {
    "This node (" + Str(parent) + ")\n\talready has a child (" + Str(child) + ")."
  }

  /** The base one-child rule holds at every node. */
  predicate AtMostOneChild(g: seq<Node>) {
    forall i :: 0 <= i < |g| ==> |g[i].children| <= 1
  }

  /** The state after `p.addChild(c)` and what it returned. */
  datatype Step = Step(nodes: seq<Node>, outcome: Outcome<string>)

  /** `p.addChild(c)`: `_addChild` either raises, when p already has a child, or makes c the
      only child; only then does `c._addParent(p)` append p to c's parents. */
  function AddChildStep(g: seq<Node>, p: nat, c: nat): (s: Step)
    requires p < |g| && c < |g|
    ensures |s.nodes| == |g|
    ensures s.outcome == Pass <==> g[p].children == []
    ensures s.outcome != Pass ==> s.outcome == Fail(AlreadyHasChildMessage(g[p], g[c])) && s.nodes == g
    ensures s.outcome == Pass ==> s.nodes[p].children == [c]
    ensures s.outcome == Pass ==> s.nodes[c].parents == g[c].parents + [p]
    ensures s.outcome == Pass ==> p != c ==> s.nodes[p].parents == g[p].parents
    ensures s.outcome == Pass ==> p != c ==> s.nodes[c].children == g[c].children
    ensures forall i :: 0 <= i < |g| && i != p && i != c ==> s.nodes[i] == g[i]
    ensures forall i :: 0 <= i < |g| ==>
      s.nodes[i].(children := [], parents := []) == g[i].(children := [], parents := [])
  {
    if |g[p].children| > 0 then Step(g, Fail(AlreadyHasChildMessage(g[p], g[c])))
    else
      var g1 := g[p := g[p].(children := [c])];
      Step(g1[c := g1[c].(parents := g1[c].parents + [p])], Pass)
  }

  /** `addChild` keeps the one-child rule. */
  lemma AddChildKeepsOneChild(g: seq<Node>, p: nat, c: nat)
    requires p < |g| && c < |g| && AtMostOneChild(g)
    ensures AtMostOneChild(AddChildStep(g, p, c).nodes)
  {
    var s := AddChildStep(g, p, c);
    forall i | 0 <= i < |g| ensures |s.nodes[i].children| <= 1 {
      if s.outcome == Pass && i == c && i != p {
        assert s.nodes[i].children == g[i].children;
      }
    }
  }

  /** Once p has a child, every further `p.addChild(d)` fails and changes nothing. */
  lemma SecondAddChildFails(g: seq<Node>, p: nat, c: nat, d: nat)
    requires p < |g| && c < |g| && d < |g|
    requires AddChildStep(g, p, c).outcome == Pass
    ensures AddChildStep(AddChildStep(g, p, c).nodes, p, d).outcome.Fail?
    ensures AddChildStep(AddChildStep(g, p, c).nodes, p, d).nodes == AddChildStep(g, p, c).nodes
  {
  }

  /** A node may be the child of several parents: adding c under p and then under q (each
      free) leaves p and q as the last two parents of c, in that order, and c's children, the
      rest of it, as they were. */
  lemma SharedChild(g: seq<Node>, p: nat, q: nat, c: nat)
    requires p < |g| && q < |g| && c < |g| && p != q && p != c && q != c
    requires g[p].children == [] && g[q].children == []
    ensures AddChildStep(g, p, c).outcome == Pass
    ensures AddChildStep(AddChildStep(g, p, c).nodes, q, c).outcome == Pass
    ensures AddChildStep(AddChildStep(g, p, c).nodes, q, c).nodes[c] == g[c].(parents := g[c].parents + [p, q])
  {
    var g1 := AddChildStep(g, p, c).nodes;
    var g2 := AddChildStep(g1, q, c).nodes;
    assert g1[q] == g[q];
    assert g2[c].parents == g[c].parents + [p] + [q];
    assert g[c].parents + [p] + [q] == g[c].parents + [p, q];
    assert g2[c].(children := [], parents := []) == g[c].(children := [], parents := []);
  }

  /** The graph of nodes, changed in place by `addChild`. */
  class SceneGraph {
    var nodes: seq<Node>

    constructor ()
      ensures nodes == []
    {
      nodes := [];
    }

    /** `Node.__init__(name)` under a subclass that supplies the three hooks: a node with
        no children and no parents. Returns its index. */
    method AddNode(className: string, name: Option<string>, xform: Mat4,
                   surface: Option<SurfaceRef>, replacesTraverse: bool) returns (id: nat)
      modifies this
      ensures id == |old(nodes)|
      ensures nodes == old(nodes) + [Node(className, name, xform, surface, replacesTraverse, [], [])]
    {
      id := |nodes|;
      nodes := nodes + [Node(className, name, xform, surface, replacesTraverse, [], [])];
    }

    /** The base `_addChild(c)` on node p. */
    method AddChildEdge(p: nat, c: nat) returns (r: Outcome<string>)
      requires p < |nodes| && c < |nodes|
      modifies this
      ensures old(nodes)[p].children != [] ==>
        r == Fail(AlreadyHasChildMessage(old(nodes)[p], old(nodes)[c])) && nodes == old(nodes)
      ensures old(nodes)[p].children == [] ==>
        r == Pass && nodes == old(nodes)[p := old(nodes)[p].(children := [c])]
    {
      if |nodes[p].children| > 0 {
        r := Fail(AlreadyHasChildMessage(nodes[p], nodes[c]));
        return;
      }
      nodes := nodes[p := nodes[p].(children := [c])];
      r := Pass;
    }

    /** The base `_addParent(p)` on node c: never rejects. */
    method AddParentEdge(c: nat, p: nat)
      requires c < |nodes|
      modifies this
      ensures nodes == old(nodes)[c := old(nodes)[c].(parents := old(nodes)[c].parents + [p])]
    {
      nodes := nodes[c := nodes[c].(parents := nodes[c].parents + [p])];
    }

    /** `p.addChild(c)`: `_addChild` first, and `_addParent` only if it did not raise. */
    method AddChild(p: nat, c: nat) returns (r: Outcome<string>)
      requires p < |nodes| && c < |nodes|
      modifies this
      ensures Step(nodes, r) == AddChildStep(old(nodes), p, c)
    {
      r := AddChildEdge(p, c);
      if r.Fail? {
        return;
      }
      AddParentEdge(c, p);
    }
  }

  /** `rank` witnesses that the child edges are acyclic: each child has a smaller rank than
      its parent, and every child index is a node. */
  predicate Ranked(g: seq<Node>, rank: seq<nat>) {
    |rank| == |g| &&
    forall i, j :: 0 <= i < |g| && 0 <= j < |g[i].children| ==>
      g[i].children[j] < |g| && rank[g[i].children[j]] < rank[i]
  }

  /** `p.addChild(p)` on a node without a child succeeds and leaves a graph whose child
      edges have a cycle, so no rank exists for it. */
  lemma SelfChildAccepted(g: seq<Node>, p: nat)
    requires p < |g| && g[p].children == []
    ensures AddChildStep(g, p, p).outcome == Pass
    ensures forall rank :: !Ranked(AddChildStep(g, p, p).nodes, rank)
  {
    var h := AddChildStep(g, p, p).nodes;
    assert h[p].children == [p];
    forall rank ensures !Ranked(h, rank) {
      assert h[p].children[0] == p;
    }
  }

  /** `a.addChild(b)` and then `b.addChild(a)`, on two distinct nodes without children, both
      succeed and leave a cycle of length two, so no rank exists for the result. */
  lemma CycleAccepted(g: seq<Node>, a: nat, b: nat)
    requires a < |g| && b < |g| && a != b && g[a].children == [] && g[b].children == []
    ensures AddChildStep(g, a, b).outcome == Pass
    ensures AddChildStep(AddChildStep(g, a, b).nodes, b, a).outcome == Pass
    ensures forall rank :: !Ranked(AddChildStep(AddChildStep(g, a, b).nodes, b, a).nodes, rank)
  {
    var g1 := AddChildStep(g, a, b).nodes;
    assert g1[b].children == [];
    var h := AddChildStep(g1, b, a).nodes;
    assert h[a].children == [b] && h[b].children == [a];
    forall rank ensures !Ranked(h, rank) {
      assert h[a].children[0] == b && h[b].children[0] == a;
    }
  }

  /** The surface handed on to the children: the node's own `_getSurface()` when it has one,
      the inherited one otherwise. */
  function SurfaceBelow(nd: Node, surf: Option<SurfaceRef>): Option<SurfaceRef> {
    if nd.surface.Some? then nd.surface else surf
  }

  /** `n._traverse(M, surf)`, with M the identity and surf None by default. A node that
      replaces `_traverse` yields `ext(n, M, surf)`; a base node passes `M . xform` and its
      surface to each child and concatenates the children's results in order. */
  function Traverse<T>(g: seq<Node>, rank: seq<nat>, ext: (nat, Mat4, Option<SurfaceRef>) -> seq<T>,
                       n: nat, m: Mat4 := Identity, surf: Option<SurfaceRef> := None): seq<T>
    requires Ranked(g, rank) && n < |g|
    decreases rank[n], 1
  {
    if g[n].replacesTraverse then ext(n, m, surf)
    else TraverseChildren(g, rank, ext, n, g[n].children, Mul(m, g[n].xform), SurfaceBelow(g[n], surf))
  }

  function TraverseChildren<T>(g: seq<Node>, rank: seq<nat>, ext: (nat, Mat4, Option<SurfaceRef>) -> seq<T>,
                               parent: nat, cs: seq<nat>, m: Mat4, surf: Option<SurfaceRef>): seq<T>
    requires Ranked(g, rank) && parent < |g|
    requires forall k :: 0 <= k < |cs| ==> cs[k] < |g| && rank[cs[k]] < rank[parent]
    decreases rank[parent], 0, |cs|
  {
    if cs == [] then []
    else Traverse(g, rank, ext, cs[0], m, surf) + TraverseChildren(g, rank, ext, parent, cs[1..], m, surf)
  }

  /** A base node without children yields the empty list. */
  lemma LeafTraversesToNothing<T>(g: seq<Node>, rank: seq<nat>, ext: (nat, Mat4, Option<SurfaceRef>) -> seq<T>,
                                  n: nat, m: Mat4, surf: Option<SurfaceRef>)
    requires Ranked(g, rank) && n < |g| && !g[n].replacesTraverse && g[n].children == []
    ensures Traverse(g, rank, ext, n, m, surf) == []
  {
  }

  /** A base node whose `_getSurface()` is not None hides the surface it inherits. */
  lemma OwnSurfaceOverrides<T>(g: seq<Node>, rank: seq<nat>, ext: (nat, Mat4, Option<SurfaceRef>) -> seq<T>,
                               n: nat, m: Mat4, s1: Option<SurfaceRef>, s2: Option<SurfaceRef>)
    requires Ranked(g, rank) && n < |g| && !g[n].replacesTraverse && g[n].surface.Some?
    ensures Traverse(g, rank, ext, n, m, s1) == Traverse(g, rank, ext, n, m, s2)
  {
  }

  /** A node with the base hooks (identity transform, no surface) hands its own arguments
      on to its children unchanged. */
  lemma BaseNodePassesThrough<T>(g: seq<Node>, rank: seq<nat>, ext: (nat, Mat4, Option<SurfaceRef>) -> seq<T>,
                                 n: nat, m: Mat4, surf: Option<SurfaceRef>)
    requires Ranked(g, rank) && n < |g| && !g[n].replacesTraverse
    requires g[n].xform == Identity && g[n].surface.None?
    ensures Traverse(g, rank, ext, n, m, surf) == TraverseChildren(g, rank, ext, n, g[n].children, m, surf)
  {
    MulIdentity(m);
  }

  // ---------------------------------------------------------------------------------------
  // A reference semantics: the result of a traversal, described by the paths that lead from
  // the start node down to the nodes that replace `_traverse`.

  /** A path is a chain of child edges. */
  predicate IsChain(g: seq<Node>, path: seq<nat>) {
    (forall k :: 0 <= k < |path| ==> path[k] < |g|) &&
    forall k :: 0 <= k < |path| - 1 ==> path[k + 1] in g[path[k]].children
  }

  /** Non-empty sequences of node indices. */
  predicate NodePaths(g: seq<Node>, ps: seq<seq<nat>>) {
    forall k :: 0 <= k < |ps| ==> |ps[k]| > 0 && forall i :: 0 <= i < |ps[k]| ==> ps[k][i] < |g|
  }

  function PrefixAll(n: nat, ps: seq<seq<nat>>): (r: seq<seq<nat>>)
    ensures |r| == |ps|
    ensures forall k :: 0 <= k < |ps| ==> r[k] == [n] + ps[k]
  {
    if ps == [] then [] else [[n] + ps[0]] + PrefixAll(n, ps[1..])
  }

  /** Every path from n that descends through base nodes and stops at the first node that
      replaces `_traverse`, in depth-first, child-order sequence. */
  function Paths(g: seq<Node>, rank: seq<nat>, n: nat): (ps: seq<seq<nat>>)
    requires Ranked(g, rank) && n < |g|
    ensures forall k :: 0 <= k < |ps| ==> |ps[k]| > 0 && ps[k][0] == n && IsChain(g, ps[k])
    ensures NodePaths(g, ps)
    ensures forall k :: 0 <= k < |ps| ==> g[ps[k][|ps[k]| - 1]].replacesTraverse
    ensures forall k, i :: 0 <= k < |ps| && 0 <= i < |ps[k]| - 1 ==> !g[ps[k][i]].replacesTraverse
    decreases rank[n], 1
  {
    if g[n].replacesTraverse then [[n]]
    else
      var cps := ChildPaths(g, rank, n, g[n].children);
      PrefixAllPaths(g, n, cps);
      PrefixAll(n, cps)
  }

  /** Prefixing a base node to paths that start at its children keeps them chains that end
      at, and only at, a replacing node. */
  lemma PrefixAllPaths(g: seq<Node>, n: nat, cps: seq<seq<nat>>)
    requires n < |g| && !g[n].replacesTraverse
    requires forall k :: 0 <= k < |cps| ==> |cps[k]| > 0 && cps[k][0] in g[n].children && IsChain(g, cps[k])
    requires NodePaths(g, cps)
    requires forall k :: 0 <= k < |cps| ==> g[cps[k][|cps[k]| - 1]].replacesTraverse
    requires forall k, i :: 0 <= k < |cps| && 0 <= i < |cps[k]| - 1 ==> !g[cps[k][i]].replacesTraverse
    ensures forall k :: 0 <= k < |PrefixAll(n, cps)| ==>
      |PrefixAll(n, cps)[k]| > 0 && PrefixAll(n, cps)[k][0] == n && IsChain(g, PrefixAll(n, cps)[k])
    ensures NodePaths(g, PrefixAll(n, cps))
    ensures forall k :: 0 <= k < |PrefixAll(n, cps)| ==> g[PrefixAll(n, cps)[k][|PrefixAll(n, cps)[k]| - 1]].replacesTraverse
    ensures forall k, i :: 0 <= k < |PrefixAll(n, cps)| && 0 <= i < |PrefixAll(n, cps)[k]| - 1 ==>
      !g[PrefixAll(n, cps)[k][i]].replacesTraverse
  {
    var ps := PrefixAll(n, cps);
    forall k | 0 <= k < |ps|
      ensures |ps[k]| > 0 && ps[k][0] == n && IsChain(g, ps[k])
      ensures forall i :: 0 <= i < |ps[k]| ==> ps[k][i] < |g|
      ensures g[ps[k][|ps[k]| - 1]].replacesTraverse
      ensures forall i :: 0 <= i < |ps[k]| - 1 ==> !g[ps[k][i]].replacesTraverse
    {
      assert ps[k] == [n] + cps[k];
      PrefixPath(g, n, cps[k]);
    }
  }

  lemma PrefixPath(g: seq<Node>, n: nat, p: seq<nat>)
    requires n < |g| && !g[n].replacesTraverse
    requires |p| > 0 && p[0] in g[n].children && IsChain(g, p)
    requires g[p[|p| - 1]].replacesTraverse
    requires forall i :: 0 <= i < |p| - 1 ==> !g[p[i]].replacesTraverse
    ensures IsChain(g, [n] + p)
    ensures g[([n] + p)[|p|]].replacesTraverse
    ensures forall i :: 0 <= i < |p| ==> !g[([n] + p)[i]].replacesTraverse
  {
    var q := [n] + p;
    forall i | 1 <= i < |q| ensures q[i] == p[i - 1] { }
    forall i | 0 <= i < |q| - 1 ensures q[i + 1] in g[q[i]].children {
      if i > 0 { assert p[i] in g[p[i - 1]].children; }
    }
  }

  /** The paths from each of cs in turn, concatenated. */
  function ChildPaths(g: seq<Node>, rank: seq<nat>, parent: nat, cs: seq<nat>): (ps: seq<seq<nat>>)
    requires Ranked(g, rank) && parent < |g|
    requires forall k :: 0 <= k < |cs| ==> cs[k] < |g| && rank[cs[k]] < rank[parent]
    ensures forall k :: 0 <= k < |ps| ==> |ps[k]| > 0 && ps[k][0] in cs && IsChain(g, ps[k])
    ensures NodePaths(g, ps)
    ensures forall k :: 0 <= k < |ps| ==> g[ps[k][|ps[k]| - 1]].replacesTraverse
    ensures forall k, i :: 0 <= k < |ps| && 0 <= i < |ps[k]| - 1 ==> !g[ps[k][i]].replacesTraverse
    decreases rank[parent], 0, |cs|
  {
    if cs == [] then []
    else
      var head := Paths(g, rank, cs[0]);
      var tail := ChildPaths(g, rank, parent, cs[1..]);
      assert forall k :: 0 <= k < |tail| ==> tail[k][0] in cs by {
        forall k | 0 <= k < |tail| ensures tail[k][0] in cs {
          assert tail[k][0] in cs[1..];
        }
      }
      ConcatPaths(g, cs, head, tail);
      head + tail
  }

  /** Two lists of paths that start in cs, run along child edges and end at, and only at, a
      replacing node, still do so once concatenated. */
  lemma ConcatPaths(g: seq<Node>, cs: seq<nat>, ps: seq<seq<nat>>, qs: seq<seq<nat>>)
    requires forall k :: 0 <= k < |ps| ==> |ps[k]| > 0 && ps[k][0] in cs && IsChain(g, ps[k])
    requires forall k :: 0 <= k < |qs| ==> |qs[k]| > 0 && qs[k][0] in cs && IsChain(g, qs[k])
    requires NodePaths(g, ps) && NodePaths(g, qs)
    requires forall k :: 0 <= k < |ps| ==> g[ps[k][|ps[k]| - 1]].replacesTraverse
    requires forall k :: 0 <= k < |qs| ==> g[qs[k][|qs[k]| - 1]].replacesTraverse
    requires forall k, i :: 0 <= k < |ps| && 0 <= i < |ps[k]| - 1 ==> !g[ps[k][i]].replacesTraverse
    requires forall k, i :: 0 <= k < |qs| && 0 <= i < |qs[k]| - 1 ==> !g[qs[k][i]].replacesTraverse
    ensures forall k :: 0 <= k < |ps + qs| ==> |(ps + qs)[k]| > 0 && (ps + qs)[k][0] in cs && IsChain(g, (ps + qs)[k])
    ensures NodePaths(g, ps + qs)
    ensures forall k :: 0 <= k < |ps + qs| ==> g[(ps + qs)[k][|(ps + qs)[k]| - 1]].replacesTraverse
    ensures forall k, i :: 0 <= k < |ps + qs| && 0 <= i < |(ps + qs)[k]| - 1 ==> !g[(ps + qs)[k][i]].replacesTraverse
  {
    var rs := ps + qs;
    forall k | 0 <= k < |rs|
      ensures rs[k] == if k < |ps| then ps[k] else qs[k - |ps|]
    {
    }
  }

  /** The transform a path's last node receives: the start transform times the local
      transforms of every node before it, in path order. */
  function PathXform(g: seq<Node>, m: Mat4, path: seq<nat>): Mat4
    requires forall k :: 0 <= k < |path| ==> path[k] < |g|
    decreases |path|
  {
    if |path| <= 1 then m else PathXform(g, Mul(m, g[path[0]].xform), path[1..])
  }

  /** The surface of the nearest of `ancestors` (searching from the last) that has one,
      or `surf` if none has. */
  function NearestSurface(g: seq<Node>, surf: Option<SurfaceRef>, ancestors: seq<nat>): (r: Option<SurfaceRef>)
    requires forall k :: 0 <= k < |ancestors| ==> ancestors[k] < |g|
    ensures (forall k :: 0 <= k < |ancestors| ==> g[ancestors[k]].surface.None?) ==> r == surf
    ensures (exists k :: 0 <= k < |ancestors| && g[ancestors[k]].surface.Some?) ==>
      exists k :: 0 <= k < |ancestors| && g[ancestors[k]].surface.Some? && r == g[ancestors[k]].surface &&
        forall j :: k < j < |ancestors| ==> g[ancestors[j]].surface.None?
    decreases |ancestors|
  {
    if ancestors == [] then surf
    else
      var last := ancestors[|ancestors| - 1];
      var front := ancestors[..|ancestors| - 1];
      assert forall k :: 0 <= k < |front| ==> front[k] == ancestors[k];
      if g[last].surface.Some? then g[last].surface
      else NearestSurface(g, surf, front)
  }

  /** What the last node of a path yields for the path's transform and nearest surface. */
  function PathYield<T>(g: seq<Node>, ext: (nat, Mat4, Option<SurfaceRef>) -> seq<T>, m: Mat4,
                        surf: Option<SurfaceRef>, p: seq<nat>): seq<T>
    requires |p| > 0 && forall i :: 0 <= i < |p| ==> p[i] < |g|
  {
    ext(p[|p| - 1], PathXform(g, m, p), NearestSurface(g, surf, p[..|p| - 1]))
  }

  function Flatten<T>(xss: seq<seq<T>>): seq<T> {
    if xss == [] then [] else xss[0] + Flatten(xss[1..])
  }

  lemma {:induction false} FlattenAppend<T>(xss: seq<seq<T>>, yss: seq<seq<T>>)
    ensures Flatten(xss + yss) == Flatten(xss) + Flatten(yss)
    decreases |xss|
  {
    if xss != [] {
      assert (xss + yss)[0] == xss[0];
      assert (xss + yss)[1..] == xss[1..] + yss;
      FlattenAppend(xss[1..], yss);
      calc {
        Flatten(xss + yss);
        xss[0] + Flatten(xss[1..] + yss);
        xss[0] + (Flatten(xss[1..]) + Flatten(yss));
        (xss[0] + Flatten(xss[1..])) + Flatten(yss);
      }
    } else {
      assert xss + yss == yss;
    }
  }

  /** What the end of each path yields, concatenated in path order. */
  function Emit<T>(g: seq<Node>, ext: (nat, Mat4, Option<SurfaceRef>) -> seq<T>, m: Mat4,
                   surf: Option<SurfaceRef>, ps: seq<seq<nat>>): seq<T>
    requires NodePaths(g, ps)
  {
    Flatten(seq(|ps|, k requires 0 <= k < |ps| => PathYield(g, ext, m, surf, ps[k])))
  }

  lemma EmitAppend<T>(g: seq<Node>, ext: (nat, Mat4, Option<SurfaceRef>) -> seq<T>, m: Mat4,
                      surf: Option<SurfaceRef>, ps: seq<seq<nat>>, qs: seq<seq<nat>>)
    requires NodePaths(g, ps) && NodePaths(g, qs)
    ensures NodePaths(g, ps + qs)
    ensures Emit(g, ext, m, surf, ps + qs) == Emit(g, ext, m, surf, ps) + Emit(g, ext, m, surf, qs)
  {
    var ys := seq(|ps|, k requires 0 <= k < |ps| => PathYield(g, ext, m, surf, ps[k]));
    var zs := seq(|qs|, k requires 0 <= k < |qs| => PathYield(g, ext, m, surf, qs[k]));
    var rs := ps + qs;
    assert NodePaths(g, rs) by {
      forall k | 0 <= k < |rs| ensures |rs[k]| > 0 && forall i :: 0 <= i < |rs[k]| ==> rs[k][i] < |g| {
        if k < |ps| { assert rs[k] == ps[k]; } else { assert rs[k] == qs[k - |ps|]; }
      }
    }
    assert seq(|rs|, k requires 0 <= k < |rs| => PathYield(g, ext, m, surf, rs[k])) == ys + zs;
    FlattenAppend(ys, zs);
  }

  /** Looking for the nearest surface among [n] + rest is looking among rest, starting
      from n's surface if it has one. */
  lemma {:induction false} NearestSurfaceCons(g: seq<Node>, surf: Option<SurfaceRef>, n: nat, rest: seq<nat>)
    requires n < |g| && forall k :: 0 <= k < |rest| ==> rest[k] < |g|
    ensures NearestSurface(g, surf, [n] + rest) == NearestSurface(g, SurfaceBelow(g[n], surf), rest)
    decreases |rest|
  {
    var a := [n] + rest;
    if rest == [] {
      assert a[..|a| - 1] == [];
    } else {
      var last := rest[|rest| - 1];
      assert a[|a| - 1] == last;
      assert a[..|a| - 1] == [n] + rest[..|rest| - 1];
      if g[last].surface.None? {
        NearestSurfaceCons(g, surf, n, rest[..|rest| - 1]);
      }
    }
  }

  lemma PathYieldCons<T>(g: seq<Node>, ext: (nat, Mat4, Option<SurfaceRef>) -> seq<T>, m: Mat4,
                         surf: Option<SurfaceRef>, n: nat, p: seq<nat>)
    requires n < |g| && |p| > 0 && forall i :: 0 <= i < |p| ==> p[i] < |g|
    ensures forall i :: 0 <= i < |[n] + p| ==> ([n] + p)[i] < |g|
    ensures PathYield(g, ext, m, surf, [n] + p) == PathYield(g, ext, Mul(m, g[n].xform), SurfaceBelow(g[n], surf), p)
  {
    var q := [n] + p;
    assert forall i :: 0 <= i < |q| ==> q[i] < |g| by {
      forall i | 0 <= i < |q| ensures q[i] < |g| {
        if i > 0 { assert q[i] == p[i - 1]; }
      }
    }
    assert q[|q| - 1] == p[|p| - 1];
    assert q[1..] == p;
    assert PathXform(g, m, q) == PathXform(g, Mul(m, g[n].xform), p);
    assert q[..|q| - 1] == [n] + p[..|p| - 1];
    NearestSurfaceCons(g, surf, n, p[..|p| - 1]);
    assert NearestSurface(g, surf, q[..|q| - 1]) == NearestSurface(g, SurfaceBelow(g[n], surf), p[..|p| - 1]);
  }

  /** Prefixing every path with a base node n is the same as starting the children's paths
      from n's outgoing transform and surface. */
  lemma EmitPrefix<T>(g: seq<Node>, ext: (nat, Mat4, Option<SurfaceRef>) -> seq<T>, m: Mat4,
                      surf: Option<SurfaceRef>, n: nat, ps: seq<seq<nat>>)
    requires n < |g| && NodePaths(g, ps)
    ensures NodePaths(g, PrefixAll(n, ps))
    ensures Emit(g, ext, m, surf, PrefixAll(n, ps))
         == Emit(g, ext, Mul(m, g[n].xform), SurfaceBelow(g[n], surf), ps)
  {
    var qs := PrefixAll(n, ps);
    forall k | 0 <= k < |qs| ensures |qs[k]| > 0 && forall i :: 0 <= i < |qs[k]| ==> qs[k][i] < |g| {
      assert qs[k] == [n] + ps[k];
      forall i | 0 <= i < |qs[k]| ensures qs[k][i] < |g| {
        if i > 0 { assert qs[k][i] == ps[k][i - 1]; }
      }
    }
    var m1, s1 := Mul(m, g[n].xform), SurfaceBelow(g[n], surf);
    forall k | 0 <= k < |ps|
      ensures PathYield(g, ext, m, surf, qs[k]) == PathYield(g, ext, m1, s1, ps[k])
    {
      assert qs[k] == [n] + ps[k];
      PathYieldCons(g, ext, m, surf, n, ps[k]);
    }
    assert seq(|qs|, k requires 0 <= k < |qs| => PathYield(g, ext, m, surf, qs[k]))
        == seq(|ps|, k requires 0 <= k < |ps| => PathYield(g, ext, m1, s1, ps[k]));
  }

  /** `_traverse` yields, in order, what the first replacing node on each path below the
      start node yields for that path's composite transform and nearest surface. */
  lemma {:induction false} TraverseIsEmitOfPaths<T>(g: seq<Node>, rank: seq<nat>,
                                                   ext: (nat, Mat4, Option<SurfaceRef>) -> seq<T>,
                                                   n: nat, m: Mat4, surf: Option<SurfaceRef>)
    requires Ranked(g, rank) && n < |g|
    ensures Traverse(g, rank, ext, n, m, surf) == Emit(g, ext, m, surf, Paths(g, rank, n))
    decreases rank[n], 1
  {
    if g[n].replacesTraverse {
      var p := [n];
      assert p[..|p| - 1] == [];
      var ys := seq(1, k requires 0 <= k < 1 => PathYield(g, ext, m, surf, [p][k]));
      assert ys == [ext(n, m, surf)];
      assert Flatten(ys) == ext(n, m, surf) + Flatten(ys[1..]);
    } else {
      var cs := g[n].children;
      assert forall k :: 0 <= k < |cs| ==> cs[k] < |g| && rank[cs[k]] < rank[n];
      var cps := ChildPaths(g, rank, n, cs);
      ChildrenAreEmitOfPaths(g, rank, ext, n, cs, Mul(m, g[n].xform), SurfaceBelow(g[n], surf));
      EmitPrefix(g, ext, m, surf, n, cps);
    }
  }

  lemma {:induction false} ChildrenAreEmitOfPaths<T>(g: seq<Node>, rank: seq<nat>,
                                                     ext: (nat, Mat4, Option<SurfaceRef>) -> seq<T>,
                                                     parent: nat, cs: seq<nat>, m: Mat4, surf: Option<SurfaceRef>)
    requires Ranked(g, rank) && parent < |g|
    requires forall k :: 0 <= k < |cs| ==> cs[k] < |g| && rank[cs[k]] < rank[parent]
    ensures TraverseChildren(g, rank, ext, parent, cs, m, surf) == Emit(g, ext, m, surf, ChildPaths(g, rank, parent, cs))
    decreases rank[parent], 0, |cs|
  {
    if cs != [] {
      TraverseIsEmitOfPaths(g, rank, ext, cs[0], m, surf);
      ChildrenAreEmitOfPaths(g, rank, ext, parent, cs[1..], m, surf);
      EmitAppend(g, ext, m, surf, Paths(g, rank, cs[0]), ChildPaths(g, rank, parent, cs[1..]));
    }
  }
}
