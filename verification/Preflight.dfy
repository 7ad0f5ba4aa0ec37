/**
 * The bounded traversal that guards the AG-UI adapter: an explicit-stack walk over an object graph that
 * may be shared, cyclic and of any depth, before any recursive code may look at it.
 */
module Preflight {

  /** A JavaScript value: an object by identity, or anything that is not an object. */
  datatype Value = Scalar | Ref(node: nat)

  /** The own enumerable values of each object, in key order; an object without an entry has none. */
  type Heap = map<nat, seq<Value>>

  function Fields(h: Heap, node: nat): seq<Value> {
    if node in h then h[node] else []
  }

  // ---------------------------------------------------------------- the recursive specification

  /** No node of the tree a value unfolds to is more than `depth` levels below it. */
  predicate Fits(h: Heap, v: Value, depth: int)
    decreases depth + 1, 1, 0
  {
    depth >= 0 && (v.Ref? ==> FitsAll(h, Fields(h, v.node), depth - 1))
  }

  predicate FitsAll(h: Heap, vs: seq<Value>, depth: int)
    decreases depth + 1, 2, |vs|
  {
    vs == [] || (FitsAll(h, vs[..|vs| - 1], depth) && Fits(h, vs[|vs| - 1], depth))
  }

  /** Nodes of the tree a value unfolds to, not looking below the first level that is too deep. */
  function Size(h: Heap, v: Value, depth: int): (n: nat)
    ensures n >= 1
    decreases depth + 1, 1, 0
  {
    1 + if depth < 0 || v.Scalar? then 0 else SizeAll(h, Fields(h, v.node), depth - 1)
  }

  function SizeAll(h: Heap, vs: seq<Value>, depth: int): (n: nat)
    ensures n >= |vs|
    decreases depth + 1, 2, |vs|
  {
    if vs == [] then 0 else SizeAll(h, vs[..|vs| - 1], depth) + Size(h, vs[|vs| - 1], depth)
  }

  predicate Accepts(h: Heap, roots: seq<Value>, maxDepth: nat, maxNodes: nat) {
    FitsAll(h, roots, maxDepth) && SizeAll(h, roots, maxDepth) <= maxNodes
  }

  // ---------------------------------------------------------------- the stack

  datatype Frame = Visit(value: Value, depth: nat) | Leave(node: nat)

  /** The stack as a list with its top first; the traversal itself keeps the frames in a sequence. */
  datatype Work = Bottom | Push(top: Frame, rest: Work)

  ghost function Frames(work: Work): seq<Frame> {
    match work
    case Bottom => []
    case Push(f, rest) => Frames(rest) + [f]
  }

  /** The objects of the leave frames, from the bottom of the stack: the ancestors of what is on top. */
  ghost function Path(work: Work): seq<nat> {
    match work
    case Bottom => []
    case Push(Visit(_, _), rest) => Path(rest)
    case Push(Leave(node), rest) => Path(rest) + [node]
  }

  /** The same objects as a set. */
  ghost function Active(work: Work): set<nat> {
    match work
    case Bottom => {}
    case Push(Visit(_, _), rest) => Active(rest)
    case Push(Leave(node), rest) => Active(rest) + {node}
  }

  ghost function Visits(work: Work): nat {
    match work
    case Bottom => 0
    case Push(Visit(_, _), rest) => Visits(rest) + 1
    case Push(Leave(_), rest) => Visits(rest)
  }

  /** Sizes of everything still to be visited, each within what its depth leaves of the bound. */
  ghost function Pending(h: Heap, work: Work, maxDepth: nat): nat {
    match work
    case Bottom => 0
    case Push(Visit(v, depth), rest) => Pending(h, rest, maxDepth) + Size(h, v, maxDepth - depth)
    case Push(Leave(_), rest) => Pending(h, rest, maxDepth)
  }

  ghost predicate PendingFits(h: Heap, work: Work, maxDepth: nat) {
    match work
    case Bottom => true
    case Push(Visit(v, depth), rest) => PendingFits(h, rest, maxDepth) && Fits(h, v, maxDepth - depth)
    case Push(Leave(_), rest) => PendingFits(h, rest, maxDepth)
  }

  /** The number of leave frames: how deep the traversal is. */
  ghost function Height(work: Work): nat {
    match work
    case Bottom => 0
    case Push(Visit(_, _), rest) => Height(rest)
    case Push(Leave(_), rest) => Height(rest) + 1
  }

  /** The nearest leave frame is that of an object which has `v` among its values. */
  ghost predicate ChildOf(h: Heap, work: Work, v: Value) {
    match work
    case Bottom => true
    case Push(Visit(_, _), rest) => ChildOf(h, rest, v)
    case Push(Leave(node), _) => v in Fields(h, node)
  }

  /** Every frame sits right above its parent's leave frame, and no object is its own ancestor. */
  ghost predicate GoodStack(h: Heap, work: Work) {
    match work
    case Bottom => true
    case Push(Visit(v, depth), rest) => GoodStack(h, rest) && depth == Height(rest) && ChildOf(h, rest, v)
    case Push(Leave(node), rest) => GoodStack(h, rest) && node !in Active(rest) && ChildOf(h, rest, Ref(node))
  }

  lemma {:induction false} StackLength(work: Work)
    ensures |Frames(work)| == Visits(work) + Height(work)
  {
    if work.Push? {
      StackLength(work.rest);
    }
  }

  lemma {:induction false} LastOfPath(h: Heap, work: Work, v: Value)
    requires ChildOf(h, work, v) && Path(work) != []
    ensures v in Fields(h, Path(work)[|Path(work)| - 1])
  {
    if work.top.Visit? {
      LastOfPath(h, work.rest, v);
    }
  }

  lemma {:induction false} ActiveIsPath(work: Work)
    ensures forall n :: n in Active(work) <==> n in Path(work)
  {
    if work.Push? {
      ActiveIsPath(work.rest);
    }
  }

  lemma {:induction false} PendingAtLeastVisits(h: Heap, work: Work, maxDepth: nat)
    ensures Pending(h, work, maxDepth) >= Visits(work)
  {
    if work.Push? {
      PendingAtLeastVisits(h, work.rest, maxDepth);
    }
  }

  // ---------------------------------------------------------------- cycles

  ghost predicate IsPath(h: Heap, p: seq<nat>) {
    p != [] && forall i | 0 <= i < |p| - 1 :: Ref(p[i + 1]) in Fields(h, p[i])
  }

  lemma {:induction false} PathsLink(h: Heap, work: Work)
    requires GoodStack(h, work)
    ensures Path(work) != [] ==> IsPath(h, Path(work))
  {
    if work.Push? {
      PathsLink(h, work.rest);
      if work.top.Leave? {
        var p, q := Path(work.rest), Path(work);
        forall i | 0 <= i < |q| - 1 ensures Ref(q[i + 1]) in Fields(h, q[i]) {
          if i < |p| - 1 {
            assert q[i] == p[i] && q[i + 1] == p[i + 1];
          } else {
            LastOfPath(h, work.rest, Ref(work.top.node));
          }
        }
      }
    }
  }

  lemma {:induction false} MemberFits(h: Heap, vs: seq<Value>, v: Value, depth: int)
    requires v in vs && FitsAll(h, vs, depth)
    ensures Fits(h, v, depth)
  {
    if v != vs[|vs| - 1] {
      MemberFits(h, vs[..|vs| - 1], v, depth);
    }
  }

  /** Whatever is k steps away has k levels less to itself. */
  lemma {:induction false} PathFits(h: Heap, p: seq<nat>, depth: int)
    requires IsPath(h, p) && Fits(h, Ref(p[0]), depth)
    ensures Fits(h, Ref(p[|p| - 1]), depth - (|p| - 1))
  {
    if |p| > 1 {
      var q := p[..|p| - 1];
      forall i | 0 <= i < |q| - 1 ensures Ref(q[i + 1]) in Fields(h, q[i]) {
        assert Ref(p[i + 1]) in Fields(h, p[i]);
      }
      PathFits(h, q, depth);
      assert p[|q| - 1] == q[|q| - 1] && Ref(p[|q| - 1 + 1]) in Fields(h, p[|q| - 1]);
      MemberFits(h, Fields(h, q[|q| - 1]), Ref(p[|p| - 1]), depth - |p| + 1);
    }
  }

  /** An object on a cycle fits no depth bound. */
  lemma {:induction false} CyclesNeverFit(h: Heap, p: seq<nat>, depth: int)
    requires IsPath(h, p) && |p| >= 2 && p[0] == p[|p| - 1]
    ensures !Fits(h, Ref(p[0]), depth)
    decreases depth + 1
  {
    if Fits(h, Ref(p[0]), depth) {
      PathFits(h, p, depth);
      CyclesNeverFit(h, p, depth - (|p| - 1));
    }
  }

  /** A visited object that is already on the active path closes a cycle. */
  lemma ActiveMeansCycle(h: Heap, path: seq<nat>, node: nat, depth: int)
    requires IsPath(h, path) && node in path && Ref(node) in Fields(h, path[|path| - 1])
    ensures !Fits(h, Ref(node), depth)
  {
    var i :| 0 <= i < |path| && path[i] == node;
    var p := path[i..] + [node];
    forall k | 0 <= k < |p| - 1 ensures Ref(p[k + 1]) in Fields(h, p[k]) {
      assert p[k] == path[i + k];
      if k + 1 < |p| - 1 { assert p[k + 1] == path[i + k + 1]; }
    }
    CyclesNeverFit(h, p, depth);
  }

  // ---------------------------------------------------------------- the traversal

  function RootFrames(values: seq<Value>): seq<Frame> {
    seq(|values|, i requires 0 <= i < |values| => Visit(values[i], 0))
  }

  ghost function RootWork(values: seq<Value>): Work {
    if values == [] then Bottom else Push(Visit(values[|values| - 1], 0), RootWork(values[..|values| - 1]))
  }

  lemma {:induction false} RootFramesFit(h: Heap, values: seq<Value>, maxDepth: nat)
    ensures var work := RootWork(values);
      Frames(work) == RootFrames(values) && GoodStack(h, work) && Height(work) == 0 && Active(work) == {} &&
      (forall v :: ChildOf(h, work, v)) &&
      Visits(work) == |values| && Pending(h, work, maxDepth) == SizeAll(h, values, maxDepth) &&
      (PendingFits(h, work, maxDepth) <==> FitsAll(h, values, maxDepth))
    decreases |values|
  {
    if values != [] {
      RootFramesFit(h, values[..|values| - 1], maxDepth);
    }
  }

  /** Push one visit frame per child, the first child on top. */
  method PushChildren(h: Heap, start: seq<Frame>, node: nat, depth: nat, ghost below: Work, ghost maxDepth: nat)
    returns (stack: seq<Frame>, ghost work: Work)
    requires start == Frames(below) && GoodStack(h, below) && depth == Height(below)
    requires below.Push? && below.top == Leave(node)
    ensures stack == Frames(work) && GoodStack(h, work)
    ensures Height(work) == Height(below) && Active(work) == Active(below)
    ensures Visits(work) == Visits(below) + |Fields(h, node)| && |stack| == Visits(work) + Height(work)
    ensures Pending(h, work, maxDepth) == Pending(h, below, maxDepth) + SizeAll(h, Fields(h, node), maxDepth - depth)
    ensures PendingFits(h, work, maxDepth) <==>
      PendingFits(h, below, maxDepth) && FitsAll(h, Fields(h, node), maxDepth - depth)
  {
    stack, work := start, below;
    var keys := Fields(h, node);
    var index := |keys|;
    assert keys[..index] == keys;
    while index > 0
      invariant 0 <= index <= |keys| && stack == Frames(work) && GoodStack(h, work)
      invariant Height(work) == Height(below) && Active(work) == Active(below)
      invariant forall v | v in keys :: ChildOf(h, work, v)
      invariant Visits(work) == Visits(below) + |keys| - index
      invariant Pending(h, work, maxDepth) + SizeAll(h, keys[..index], maxDepth - depth) ==
        Pending(h, below, maxDepth) + SizeAll(h, keys, maxDepth - depth)
      invariant PendingFits(h, work, maxDepth) && FitsAll(h, keys[..index], maxDepth - depth) <==>
        PendingFits(h, below, maxDepth) && FitsAll(h, keys, maxDepth - depth)
    {
      index := index - 1;
      assert keys[..index + 1][..index] == keys[..index];
      stack := stack + [Visit(keys[index], depth)];
      work := Push(Visit(keys[index], depth), work);
    }
    StackLength(work);
  }

  function Max(a: int, b: int): int { if a > b then a else b }

  /** What is left to check after `visited` nodes have been counted. */
  ghost predicate Owes(h: Heap, total: nat, fits: bool, work: Work, visited: nat, maxDepth: nat) {
    GoodStack(h, work) && Height(work) <= maxDepth + 1 &&
    total == visited + Pending(h, work, maxDepth) && (fits <==> PendingFits(h, work, maxDepth))
  }

  lemma RootsOweAll(h: Heap, values: seq<Value>, maxDepth: nat)
    ensures var work := RootWork(values);
      Owes(h, SizeAll(h, values, maxDepth), FitsAll(h, values, maxDepth), work, 0, maxDepth) &&
      Frames(work) == RootFrames(values) && Height(work) == 0 && Active(work) == {} && Visits(work) == |values|
  {
    RootFramesFit(h, values, maxDepth);
  }

  /** An object that is on the active path already has no finite unfolding. */
  lemma RevisitIsTooDeep(h: Heap, work: Work, node: nat, depth: int)
    requires GoodStack(h, work) && node in Active(work) && ChildOf(h, work, Ref(node))
    ensures !Fits(h, Ref(node), depth)
  {
    ActiveIsPath(work);
    PathsLink(h, work);
    LastOfPath(h, work, Ref(node));
    ActiveMeansCycle(h, Path(work), node, depth);
  }

  lemma RevisitMeansNoFit(h: Heap, total: nat, fits: bool, work: Work, visited: nat, maxDepth: nat)
    requires work.Push? && work.top.Visit? && work.top.value.Ref? && Owes(h, total, fits, work, visited, maxDepth)
    requires work.top.value.node in Active(work.rest)
    ensures !fits
  {
    RevisitIsTooDeep(h, work.rest, work.top.value.node, maxDepth - work.top.depth);
  }

  /** The pending count rejects only what the full count would reject. */
  lemma EarlyRejectionIsRight(h: Heap, total: nat, fits: bool, work: Work, visited: nat, maxDepth: nat)
    requires work.Push? && work.top.Visit? && Owes(h, total, fits, work, visited, maxDepth)
    ensures fits ==> work.top.depth <= maxDepth
    ensures total >= visited + 1 + Visits(work.rest)
    ensures work.top.depth <= maxDepth && work.top.value.Ref? ==>
      total >= visited + 1 + Visits(work.rest) + |Fields(h, work.top.value.node)|
  {
    PendingAtLeastVisits(h, work.rest, maxDepth);
  }

  /** Trade the visit frame of an object for its leave frame and the visit frames of its values. */
  method EnterObject(h: Heap, below: seq<Frame>, node: nat, depth: nat,
                     ghost full: Work, ghost total: nat, ghost fits: bool, ghost visited: nat, ghost maxDepth: nat)
    returns (stack: seq<Frame>, ghost work: Work)
    requires full.Push? && full.top == Visit(Ref(node), depth) && depth <= maxDepth && below == Frames(full.rest)
    requires Owes(h, total, fits, full, visited, maxDepth) && node !in Active(full)
    ensures stack == Frames(work) && Owes(h, total, fits, work, visited + 1, maxDepth)
    ensures Visits(work) == Visits(full) - 1 + |Fields(h, node)| && Height(work) == Height(full) + 1
    ensures Active(work) == Active(full) + {node} && |stack| == Visits(work) + Height(work)
  {
    stack := below + [Leave(node)];
    stack, work := PushChildren(h, stack, node, depth + 1, Push(Leave(node), full.rest), maxDepth);
  }

  /**
   * The traversal accepts exactly what the recursive specification accepts, on every graph; it stops
   * within 2 * maxNodes + 1 iterations and never holds more than the stated number of frames.
   */
  method PassesInputPreflight(h: Heap, values: seq<Value>, maxDepth: nat, maxNodes: nat)
    returns (ok: bool, ghost iterations: nat, ghost peak: nat)
    ensures ok <==> Accepts(h, values, maxDepth, maxNodes)
    ensures iterations <= 2 * maxNodes + 1
    ensures peak <= Max(|values|, maxNodes) + maxDepth + 1
  {
    var stack := RootFrames(values);
    ghost var work := RootWork(values);
    var activePath: set<nat> := {};
    var visitedNodes := 0;
    var pendingNodes := |values|;
    iterations, peak := 0, |values|;
    ghost var total, fits := SizeAll(h, values, maxDepth), FitsAll(h, values, maxDepth);
    RootsOweAll(h, values, maxDepth);
    while |stack| > 0
      invariant stack == Frames(work) && Owes(h, total, fits, work, visitedNodes, maxDepth)
      invariant pendingNodes == Visits(work) && activePath == Active(work)
      invariant visitedNodes <= maxNodes && visitedNodes + pendingNodes <= Max(|values|, maxNodes)
      invariant iterations + 2 * (maxNodes - visitedNodes) + Height(work) <= 2 * maxNodes
      invariant peak <= Max(|values|, maxNodes) + maxDepth + 1
      decreases 2 * (maxNodes - visitedNodes) + Height(work)
    {
      var frame := stack[|stack| - 1];
      stack := stack[..|stack| - 1];
      ghost var full := work;
      work := work.rest;
      iterations := iterations + 1;
      if frame.Leave? {
        activePath := activePath - {frame.node};
        continue;
      }
      pendingNodes := pendingNodes - 1;
      visitedNodes := visitedNodes + 1;
      EarlyRejectionIsRight(h, total, fits, full, visitedNodes - 1, maxDepth);
      if visitedNodes > maxNodes || frame.depth > maxDepth {
        return false, iterations, peak;
      }
      if frame.value.Ref? {
        var node := frame.value.node;
        if node in activePath {
          RevisitMeansNoFit(h, total, fits, full, visitedNodes - 1, maxDepth);
          return false, iterations, peak;
        }
        var keys := Fields(h, node);
        if visitedNodes + pendingNodes + |keys| > maxNodes {
          return false, iterations, peak;
        }
        activePath := activePath + {node};
        pendingNodes := pendingNodes + |keys|;
        stack, work := EnterObject(h, stack, node, frame.depth, full, total, fits, visitedNodes - 1, maxDepth);
        peak := Max(peak, |stack|);
      }
    }
    ok := true;
  }
}
