/**
 * The raw AG-UI input is one object graph: the preflight walks it, and the entries and continuations are read
 * from it. This ties the two together, so that reordering a list of the graph reorders what it holds.
 */
module AguiRaw {
  import opened Text16
  import opened JsonText
  import opened Domain
  import opened Finite
  import opened Preflight
  import opened PreflightMeaning
  import opened AguiReceipt
  import opened Protocol
  import opened AguiResume
  import opened AguiTheorems

  // ---------------------------------------------------------------- what a graph holds

  /** The value unfolds to this JSON value, as far as objects go. */
  ghost predicate HoldsJson(h: Heap, v: Value, j: Json)
    decreases j
  {
    match j
    case Arr(items) =>
      v.Ref? && |Fields(h, v.node)| == |items| &&
      forall i | 0 <= i < |items| :: HoldsJson(h, Fields(h, v.node)[i], items[i])
    case Obj(fields) =>
      v.Ref? && |Fields(h, v.node)| == |fields| &&
      forall i | 0 <= i < |fields| :: HoldsJson(h, Fields(h, v.node)[i], fields[i].value)
    case _ => v.Scalar?
  }

  ghost predicate HoldsAmong(h: Heap, vs: seq<Value>, k: int, j: Json) { 0 <= k < |vs| && HoldsJson(h, vs[k], j) }

  /** An object that has the payload, if there is one, among its values. */
  ghost predicate Carries(h: Heap, v: Value, payload: Option<Json>) {
    v.Ref? && (payload.Some? ==> exists k :: HoldsAmong(h, Fields(h, v.node), k, payload.value))
  }

  function Firsts<T>(items: seq<(Value, T)>): (r: seq<Value>)
    ensures |r| == |items| && forall k | 0 <= k < |r| :: r[k] == items[k].0
  {
    seq(|items|, k requires 0 <= k < |items| => items[k].0)
  }

  function Seconds<T>(items: seq<(Value, T)>): (r: seq<T>)
    ensures |r| == |items| && forall k | 0 <= k < |r| :: r[k] == items[k].1
  {
    seq(|items|, k requires 0 <= k < |items| => items[k].1)
  }

  /** The list object has these members, each an object that carries its payload. */
  ghost predicate CarriesAll<T>(h: Heap, list: nat, items: seq<(Value, T)>, payload: T -> Option<Json>) {
    Fields(h, list) == Firsts(items) && forall k | 0 <= k < |items| :: Carries(h, items[k].0, payload(items[k].1))
  }

  // ---------------------------------------------------------------- cycles hold no JSON

  function Children(j: Json): seq<Json> {
    match j
    case Arr(items) => items
    case Obj(fields) => seq(|fields|, i requires 0 <= i < |fields| => fields[i].value)
    case _ => []
  }

  lemma HeldChild(h: Heap, v: Value, j: Json, i: int)
    requires HoldsJson(h, v, j) && v.Ref? && 0 <= i < |Fields(h, v.node)|
    ensures i < |Children(j)| && Children(j)[i] < j && HoldsJson(h, Fields(h, v.node)[i], Children(j)[i])
  {
  }

  lemma {:induction false} PathHolds(h: Heap, p: seq<nat>, j: Json) returns (k: Json)
    requires IsPath(h, p) && HoldsJson(h, Ref(p[0]), j)
    ensures HoldsJson(h, Ref(p[|p| - 1]), k) && if |p| == 1 then k == j else k < j
    decreases |p|
  {
    if |p| == 1 {
      k := j;
    } else {
      var q := p[..|p| - 1];
      assert IsPath(h, q) by {
        forall i | 0 <= i < |q| - 1 ensures Ref(q[i + 1]) in Fields(h, q[i]) {
          assert Ref(p[i + 1]) in Fields(h, p[i]);
        }
      }
      var above := PathHolds(h, q, j);
      var last := |p| - 1;
      assert Ref(p[last - 1 + 1]) in Fields(h, p[last - 1]);
      var i :| 0 <= i < |Fields(h, p[last - 1])| && Fields(h, p[last - 1])[i] == Ref(p[last]);
      HeldChild(h, Ref(p[last - 1]), above, i);
      k := Children(above)[i];
    }
  }

  lemma {:induction false} CyclesHoldNothing(h: Heap, p: seq<nat>, j: Json)
    requires IsPath(h, p) && |p| > 1 && p[0] == p[|p| - 1]
    ensures !HoldsJson(h, Ref(p[0]), j)
    decreases j
  {
    if HoldsJson(h, Ref(p[0]), j) {
      var k := PathHolds(h, p, j);
      CyclesHoldNothing(h, p, k);
    }
  }

  // ---------------------------------------------------------------- reordering a list

  /** No path from the value ends at the object. */
  ghost predicate Misses(h: Heap, v: Value, list: nat) { forall p | PathFrom(h, v, p) :: p[|p| - 1] != list }

  /** A payload does not lead back to the list that its own object is in. */
  lemma PayloadsMissTheirList(h: Heap, list: nat, v: Value, c: Value, j: Json)
    requires v in Fields(h, list) && v.Ref? && c in Fields(h, v.node) && HoldsJson(h, c, j)
    ensures Misses(h, c, list)
  {
    forall p | PathFrom(h, c, p) ensures p[|p| - 1] != list {
      if p[|p| - 1] == list {
        var q := p + [v.node, p[0]];
        forall i | 0 <= i < |q| - 1 ensures Ref(q[i + 1]) in Fields(h, q[i]) {
          if i < |p| - 1 { assert q[i] == p[i] && q[i + 1] == p[i + 1]; }
        }
        CyclesHoldNothing(h, q, j);
      }
    }
  }

  /** The two graphs differ at one object at most. */
  ghost predicate DifferAt(h: Heap, g: Heap, list: nat) { forall n: nat | n != list :: Fields(g, n) == Fields(h, n) }

  lemma {:induction false} HeldElsewhere(h: Heap, g: Heap, list: nat, v: Value, j: Json)
    requires HoldsJson(h, v, j) && Misses(h, v, list) && DifferAt(h, g, list)
    ensures HoldsJson(g, v, j)
    decreases j
  {
    if v.Ref? {
      assert PathFrom(h, v, [v.node]);
      forall i | 0 <= i < |Fields(h, v.node)| ensures HoldsJson(g, Fields(g, v.node)[i], Children(j)[i]) {
        HeldChild(h, v, j, i);
        ChildMisses(h, v, list, i);
        HeldElsewhere(h, g, list, Fields(h, v.node)[i], Children(j)[i]);
      }
    }
  }

  lemma ChildMisses(h: Heap, v: Value, list: nat, i: int)
    requires v.Ref? && 0 <= i < |Fields(h, v.node)| && Misses(h, v, list)
    ensures Misses(h, Fields(h, v.node)[i], list)
  {
    forall p | PathFrom(h, Fields(h, v.node)[i], p) ensures p[|p| - 1] != list {
      var q := [v.node] + p;
      forall k | 0 <= k < |q| - 1 ensures Ref(q[k + 1]) in Fields(h, q[k]) {
        if k > 0 { assert q[k] == p[k - 1] && q[k + 1] == p[k]; }
      }
      assert PathFrom(h, v, q);
    }
  }

  lemma CarriesElsewhere(h: Heap, g: Heap, list: nat, v: Value, payload: Option<Json>)
    requires Carries(h, v, payload) && v in Fields(h, list) && DifferAt(h, g, list)
    requires multiset(Fields(h, list)) == multiset(Fields(g, list))
    ensures Carries(g, v, payload)
  {
    if payload.Some? {
      var k :| HoldsAmong(h, Fields(h, v.node), k, payload.value);
      var c := Fields(h, v.node)[k];
      PayloadsMissTheirList(h, list, v, c, payload.value);
      HeldElsewhere(h, g, list, c, payload.value);
      assert c in multiset(Fields(g, v.node));
      var i :| 0 <= i < |Fields(g, v.node)| && Fields(g, v.node)[i] == c;
      assert HoldsAmong(g, Fields(g, v.node), i, payload.value);
    }
  }

  lemma {:induction false} ProjectionsFollow<T>(a: seq<(Value, T)>, b: seq<(Value, T)>)
    requires multiset(a) == multiset(b)
    ensures multiset(Firsts(a)) == multiset(Firsts(b)) && multiset(Seconds(a)) == multiset(Seconds(b))
    decreases |a|
  {
    assert |a| == |multiset(a)| == |b|;
    if a != [] {
      assert a[0] in multiset(b);
      var j :| 0 <= j < |b| && b[j] == a[0];
      TakenFromBoth(a, 0);
      TakenFromBoth(b, j);
      Removing(a, 0);
      Removing(b, j);
      ProjectionsFollow(Without(a, 0), Without(b, j));
      assert Firsts(a)[0] == Firsts(b)[j] && Seconds(a)[0] == Seconds(b)[j];
      PutBack(Firsts(a), Firsts(b), a[0].0);
      PutBack(Seconds(a), Seconds(b), a[0].1);
    }
  }

  lemma TakenFromBoth<T>(a: seq<(Value, T)>, k: nat)
    requires k < |a|
    ensures multiset(Firsts(Without(a, k))) == multiset(Firsts(a)) - multiset{a[k].0}
    ensures multiset(Seconds(Without(a, k))) == multiset(Seconds(a)) - multiset{a[k].1}
  {
    Removing(Firsts(a), k);
    Removing(Seconds(a), k);
    assert Firsts(Without(a, k)) == Without(Firsts(a), k);
    assert Seconds(Without(a, k)) == Without(Seconds(a), k);
  }

  /** A list whose members are put in another order carries the same payloads in that order. */
  lemma ShuffledListCarries<T>(
    h: Heap, list: nat, items: seq<(Value, T)>, shuffled: seq<(Value, T)>, payload: T -> Option<Json>)
    requires CarriesAll(h, list, items, payload) && multiset(items) == multiset(shuffled)
    ensures var g := h[list := Firsts(shuffled)];
      CarriesAll(g, list, shuffled, payload) && Reordered(h, g)
  {
    var g := h[list := Firsts(shuffled)];
    ProjectionsFollow(items, shuffled);
    assert DifferAt(h, g, list);
    forall k | 0 <= k < |shuffled| ensures Carries(g, shuffled[k].0, payload(shuffled[k].1)) {
      assert shuffled[k] in multiset(items);
      var i :| 0 <= i < |items| && items[i] == shuffled[k];
      assert Firsts(items)[i] in Fields(h, list);
      CarriesElsewhere(h, g, list, items[i].0, payload(items[i].1));
    }
  }

  // ---------------------------------------------------------------- the theorems

  function EntryPayload(e: Entry): Option<Json> { if e.payload.Given? then Some(e.payload.value) else None }

  function EnvelopePayload(e: Envelope): Option<Json> { Some(e.base.payload) }

  /**
   * One input: a graph whose list of resume entries is put in another order is read as the entries in that
   * order, and is answered alike, by the preflight and by everything after it.
   */
  lemma RawEntriesInAnyOrder(
    c: Codec, h: Heap, list: nat, items: seq<(Value, Entry)>, shuffled: seq<(Value, Entry)>, roots: seq<Value>,
    limits: Limits, threadId: Text, raw: Option<Receipt>, current: seq<Envelope>, now: Option<Time>,
    policy: Option<Policy>)
    requires CarriesAll(h, list, items, EntryPayload) && multiset(items) == multiset(shuffled)
    ensures var g := h[list := Firsts(shuffled)];
      CarriesAll(g, list, shuffled, EntryPayload) &&
      Validate(c, SafeInput(h, roots, limits), Some(RunInput(threadId, Some(Seconds(items)))), raw, current, now,
               policy) ==
      Validate(c, SafeInput(g, roots, limits), Some(RunInput(threadId, Some(Seconds(shuffled)))), raw, current, now,
               policy)
  {
    var g := h[list := Firsts(shuffled)];
    ShuffledListCarries(h, list, items, shuffled, EntryPayload);
    ProjectionsFollow(items, shuffled);
    RawOrderIsIrrelevant(c, h, g, roots, limits, threadId, Seconds(items), Seconds(shuffled), raw, current, current,
                         now, policy);
  }

  /** And so is a graph whose list of continuations is put in another order. */
  lemma RawCohortInAnyOrder(
    c: Codec, h: Heap, list: nat, cohort: seq<(Value, Envelope)>, shuffled: seq<(Value, Envelope)>, roots: seq<Value>,
    limits: Limits, threadId: Text, entries: seq<Entry>, raw: Option<Receipt>, now: Option<Time>,
    policy: Option<Policy>)
    requires CarriesAll(h, list, cohort, EnvelopePayload) && multiset(cohort) == multiset(shuffled)
    ensures var g := h[list := Firsts(shuffled)];
      CarriesAll(g, list, shuffled, EnvelopePayload) &&
      Validate(c, SafeInput(h, roots, limits), Some(RunInput(threadId, Some(entries))), raw, Seconds(cohort), now,
               policy) ==
      Validate(c, SafeInput(g, roots, limits), Some(RunInput(threadId, Some(entries))), raw, Seconds(shuffled), now,
               policy)
  {
    var g := h[list := Firsts(shuffled)];
    ShuffledListCarries(h, list, cohort, shuffled, EnvelopePayload);
    ProjectionsFollow(cohort, shuffled);
    RawOrderIsIrrelevant(c, h, g, roots, limits, threadId, entries, entries, raw, Seconds(cohort), Seconds(shuffled),
                         now, policy);
  }
}
