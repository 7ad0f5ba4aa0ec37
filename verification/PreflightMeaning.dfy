/** What the preflight decides, in terms of the trees that values unfold to and of cycles in the graph. */
module PreflightMeaning {
  import opened Finite
  import opened Preflight

  /** A finite tree of values: a node shared by two objects appears once under each. */
  datatype Tree = Tree(children: seq<Tree>)

  ghost predicate Unfolds(h: Heap, v: Value, t: Tree)
    decreases t
  {
    if v.Scalar? then t.children == []
    else
      var fields := Fields(h, v.node);
      |t.children| == |fields| && forall i | 0 <= i < |fields| :: Unfolds(h, fields[i], t.children[i])
  }

  ghost function Nodes(t: Tree): nat
    decreases t, 1, 0
  {
    1 + NodesOf(t.children)
  }

  ghost function NodesOf(ts: seq<Tree>): nat
    decreases ts, 0, |ts|
  {
    if ts == [] then 0 else NodesOf(ts[..|ts| - 1]) + Nodes(ts[|ts| - 1])
  }

  /** Every node is at most `depth` levels below the root. */
  ghost predicate Shallow(t: Tree, depth: int)
    decreases t
  {
    depth >= 0 && forall i | 0 <= i < |t.children| :: Shallow(t.children[i], depth - 1)
  }

  ghost predicate UnfoldAll(h: Heap, vs: seq<Value>, ts: seq<Tree>) {
    |ts| == |vs| && forall i | 0 <= i < |vs| :: Unfolds(h, vs[i], ts[i])
  }

  ghost predicate AllShallow(ts: seq<Tree>, depth: int) {
    forall i | 0 <= i < |ts| :: Shallow(ts[i], depth)
  }

  // ---------------------------------------------------------------- unfoldings

  /** A value within the depth bound has an unfolding, which is as shallow as the bound says. */
  lemma {:induction false} Unfolding(h: Heap, v: Value, depth: int) returns (t: Tree)
    requires Fits(h, v, depth)
    ensures Unfolds(h, v, t) && Shallow(t, depth)
    decreases depth + 1, 1, 0
  {
    if v.Scalar? {
      t := Tree([]);
    } else {
      var ts := Unfoldings(h, Fields(h, v.node), depth - 1);
      t := Tree(ts);
    }
  }

  lemma {:induction false} Unfoldings(h: Heap, vs: seq<Value>, depth: int) returns (ts: seq<Tree>)
    requires FitsAll(h, vs, depth)
    ensures UnfoldAll(h, vs, ts) && AllShallow(ts, depth)
    decreases depth + 1, 2, |vs|
  {
    if vs == [] {
      ts := [];
    } else {
      ts := Unfoldings(h, vs[..|vs| - 1], depth);
      var last := Unfolding(h, vs[|vs| - 1], depth);
      ts := ts + [last];
    }
  }

  /** The recursive specification measures the unfolding, whichever it is given. */
  lemma {:induction false} UnfoldingIsMeasured(h: Heap, v: Value, t: Tree, depth: int)
    requires Unfolds(h, v, t) && Shallow(t, depth)
    ensures Fits(h, v, depth) && Size(h, v, depth) == Nodes(t)
    decreases t, 1, 0
  {
    if v.Ref? {
      UnfoldingsAreMeasured(h, Fields(h, v.node), t.children, depth - 1);
    } else {
      assert NodesOf(t.children) == 0;
    }
  }

  lemma {:induction false} UnfoldingsAreMeasured(h: Heap, vs: seq<Value>, ts: seq<Tree>, depth: int)
    requires UnfoldAll(h, vs, ts) && AllShallow(ts, depth)
    ensures FitsAll(h, vs, depth) && SizeAll(h, vs, depth) == NodesOf(ts)
    decreases ts, 0, |ts|
  {
    if vs != [] {
      UnfoldingsAreMeasured(h, vs[..|vs| - 1], ts[..|ts| - 1], depth);
      UnfoldingIsMeasured(h, vs[|vs| - 1], ts[|ts| - 1], depth);
    }
  }

  /** Accepted inputs are those whose unfolding is finite, shallow enough and small enough. */
  lemma AcceptsMeasuresTheUnfolding(h: Heap, roots: seq<Value>, maxDepth: nat, maxNodes: nat)
    ensures Accepts(h, roots, maxDepth, maxNodes) <==>
      exists ts :: UnfoldAll(h, roots, ts) && AllShallow(ts, maxDepth) && NodesOf(ts) <= maxNodes
  {
    if Accepts(h, roots, maxDepth, maxNodes) {
      var ts := Unfoldings(h, roots, maxDepth);
      UnfoldingsAreMeasured(h, roots, ts, maxDepth);
    }
    if exists ts :: UnfoldAll(h, roots, ts) && AllShallow(ts, maxDepth) && NodesOf(ts) <= maxNodes {
      var ts :| UnfoldAll(h, roots, ts) && AllShallow(ts, maxDepth) && NodesOf(ts) <= maxNodes;
      UnfoldingsAreMeasured(h, roots, ts, maxDepth);
    }
  }

  // ---------------------------------------------------------------- cycles

  ghost predicate PathFrom(h: Heap, v: Value, p: seq<nat>) {
    IsPath(h, p) && v == Ref(p[0])
  }

  /** Some path from the value comes back to an object it has already been at. */
  ghost predicate ReachesCycle(h: Heap, v: Value) {
    exists p, i, j :: PathFrom(h, v, p) && 0 <= i < j < |p| && p[i] == p[j]
  }

  /** The part of a path between two of its places is a path. */
  lemma SubPath(h: Heap, p: seq<nat>, i: nat, j: nat)
    requires IsPath(h, p) && i <= j < |p|
    ensures IsPath(h, p[i..j + 1])
  {
    var q := p[i..j + 1];
    forall k | 0 <= k < |q| - 1 ensures Ref(q[k + 1]) in Fields(h, q[k]) {
      assert q[k] == p[i + k] && q[k + 1] == p[i + k + 1];
    }
  }

  lemma CyclesHaveNoBound(h: Heap, v: Value, depth: int)
    requires ReachesCycle(h, v)
    ensures !Fits(h, v, depth)
  {
    var p, i, j :| PathFrom(h, v, p) && 0 <= i < j < |p| && p[i] == p[j];
    if Fits(h, v, depth) {
      SubPath(h, p, 0, i);
      PathFits(h, p[..i + 1], depth);
      SubPath(h, p, i, j);
      CyclesNeverFit(h, p[i..j + 1], depth - i);
    }
  }

  lemma {:induction false} UnfitMember(h: Heap, vs: seq<Value>, depth: int) returns (v: Value)
    requires !FitsAll(h, vs, depth)
    ensures v in vs && !Fits(h, v, depth)
  {
    if FitsAll(h, vs[..|vs| - 1], depth) {
      v := vs[|vs| - 1];
    } else {
      v := UnfitMember(h, vs[..|vs| - 1], depth);
    }
  }

  /** A value that exceeds a depth bound starts a path as long as the bound, through objects that have values. */
  lemma {:induction false} LongPath(h: Heap, v: Value, depth: nat) returns (p: seq<nat>)
    requires !Fits(h, v, depth)
    ensures PathFrom(h, v, p) && |p| == depth + 1 && forall n | n in p :: n in h
    decreases depth
  {
    var child := UnfitMember(h, Fields(h, v.node), depth - 1);
    if depth == 0 {
      p := [v.node];
    } else {
      var rest := LongPath(h, child, depth - 1);
      p := [v.node] + rest;
      forall i | 0 <= i < |p| - 1 ensures Ref(p[i + 1]) in Fields(h, p[i]) {
        if i > 0 { assert p[i] == rest[i - 1] && p[i + 1] == rest[i]; }
      }
    }
  }

  /** Having a bound at all is having no cycle: the number of objects is bound enough. */
  lemma BoundedMeansAcyclic(h: Heap, v: Value)
    ensures Fits(h, v, |h|) <==> !ReachesCycle(h, v)
    ensures (exists depth :: Fits(h, v, depth)) <==> !ReachesCycle(h, v)
  {
    forall depth: int | ReachesCycle(h, v) ensures !Fits(h, v, depth) {
      CyclesHaveNoBound(h, v, depth);
    }
    if !Fits(h, v, |h|) && !ReachesCycle(h, v) {
      var p := LongPath(h, v, |h|);
      assert Distinct(p);
      DistinctWhenCounted(p);
      SubsetCount(Range(p), h.Keys);
      assert false;
    }
  }

  /** An input that reaches a cycle from any root is refused under every limit. */
  lemma CyclicInputsAreRefused(h: Heap, roots: seq<Value>, v: Value, maxDepth: nat, maxNodes: nat)
    requires v in roots && ReachesCycle(h, v)
    ensures !Accepts(h, roots, maxDepth, maxNodes)
  {
    if FitsAll(h, roots, maxDepth) {
      MemberFits(h, roots, v, maxDepth);
      CyclesHaveNoBound(h, v, maxDepth);
    }
  }

  /** The simplest of them: an object that holds itself. */
  lemma SelfReferencesAreRefused(h: Heap, roots: seq<Value>, node: nat, maxDepth: nat, maxNodes: nat)
    requires Ref(node) in roots && node in h && Ref(node) in h[node]
    ensures !Accepts(h, roots, maxDepth, maxNodes)
  {
    var p := [node, node];
    assert PathFrom(h, Ref(node), p) && p[0] == p[1];
    CyclicInputsAreRefused(h, roots, Ref(node), maxDepth, maxNodes);
  }

  // ---------------------------------------------------------------- order

  lemma {:induction false} TakenOut(h: Heap, vs: seq<Value>, k: nat, depth: int)
    requires k < |vs|
    ensures FitsAll(h, vs, depth) <==> FitsAll(h, Without(vs, k), depth) && Fits(h, vs[k], depth)
    ensures SizeAll(h, vs, depth) == SizeAll(h, Without(vs, k), depth) + Size(h, vs[k], depth)
    decreases |vs|
  {
    var n := |vs| - 1;
    if k == n {
      assert Without(vs, k) == vs[..n];
    } else {
      TakenOut(h, vs[..n], k, depth);
      assert Without(vs, k)[..n - 1] == Without(vs[..n], k) && Without(vs, k)[n - 1] == vs[n];
    }
  }

  /** The order of values does not matter to the specification. */
  lemma {:induction false} ValuesInAnyOrder(h: Heap, vs: seq<Value>, ws: seq<Value>, depth: int)
    requires multiset(vs) == multiset(ws)
    ensures FitsAll(h, vs, depth) == FitsAll(h, ws, depth) && SizeAll(h, vs, depth) == SizeAll(h, ws, depth)
    decreases |vs|
  {
    assert |vs| == |multiset(vs)| == |ws|;
    if vs != [] {
      assert vs[0] in multiset(ws);
      var j :| 0 <= j < |ws| && ws[j] == vs[0];
      Removing(vs, 0);
      Removing(ws, j);
      ValuesInAnyOrder(h, Without(vs, 0), Without(ws, j), depth);
      TakenOut(h, vs, 0, depth);
      TakenOut(h, ws, j, depth);
    }
  }

  /** The same objects, with the values of each in some other order. */
  ghost predicate Reordered(h: Heap, g: Heap) {
    forall n: nat :: multiset(Fields(h, n)) == multiset(Fields(g, n))
  }

  lemma {:induction false} ReorderedMeasuresAlike(h: Heap, g: Heap, v: Value, depth: int)
    requires Reordered(h, g)
    ensures Fits(h, v, depth) == Fits(g, v, depth) && Size(h, v, depth) == Size(g, v, depth)
    decreases depth + 1, 1, 0
  {
    if depth >= 0 && v.Ref? {
      ReorderedMeasureAlike(h, g, Fields(h, v.node), depth - 1);
      ValuesInAnyOrder(g, Fields(h, v.node), Fields(g, v.node), depth - 1);
    }
  }

  lemma {:induction false} ReorderedMeasureAlike(h: Heap, g: Heap, vs: seq<Value>, depth: int)
    requires Reordered(h, g)
    ensures FitsAll(h, vs, depth) == FitsAll(g, vs, depth) && SizeAll(h, vs, depth) == SizeAll(g, vs, depth)
    decreases depth + 1, 2, |vs|
  {
    if vs != [] {
      ReorderedMeasureAlike(h, g, vs[..|vs| - 1], depth);
      ReorderedMeasuresAlike(h, g, vs[|vs| - 1], depth);
    }
  }

  /** Neither the order of the roots nor that of any object's values decides whether the input is accepted. */
  lemma AcceptsInAnyOrder(h: Heap, g: Heap, roots: seq<Value>, others: seq<Value>, maxDepth: nat, maxNodes: nat)
    requires Reordered(h, g) && multiset(roots) == multiset(others)
    ensures Accepts(h, roots, maxDepth, maxNodes) == Accepts(g, others, maxDepth, maxNodes)
  {
    ReorderedMeasureAlike(h, g, roots, maxDepth);
    ValuesInAnyOrder(g, roots, others, maxDepth);
  }
}
