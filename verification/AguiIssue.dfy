/**
 * Issuing a cohort of interrupts, and what its receipt is good for: it passes the checks made on the way
 * back, now and after any transitions, and its hash pins down all of it.
 */
module AguiIssue {
  import opened Text16
  import opened Domain
  import opened EventLog
  import opened Finite
  import opened AguiReceipt
  import opened Protocol

  /** The cohorts that can be issued to one run. */
  ghost predicate Issuable(c: Codec, cohort: seq<Envelope>, binding: Binding) {
    IsOpaqueId(binding.runId) && IsOpaqueId(binding.threadId) && cohort != [] && Distinct(CohortIds(cohort)) &&
    forall k | 0 <= k < |cohort| :: MayIssue(c, cohort[k], binding.threadId)
  }

  ghost predicate MayIssue(c: Codec, e: Envelope, threadId: Text) {
    IsClean(e, threadId) && IsInstant(e.base.expiresAt) && 0 < e.base.version <= MAX_SAFE
  }

  predicate IsClean(e: Envelope, threadId: Text) {
    e.Pending? && e.base.correlationId == threadId && IsOpaqueId(e.base.continuationId) &&
    ParseContract(e.base.payload).Some?
  }

  lemma {:induction false} NoProblemMeans(cohort: seq<Envelope>, threadId: Text)
    ensures FirstProblem(cohort, threadId).None? <==>
      Distinct(CohortIds(cohort)) && forall k | 0 <= k < |cohort| :: IsClean(cohort[k], threadId)
  {
    if cohort != [] {
      var init, last := cohort[..|cohort| - 1], cohort[|cohort| - 1];
      NoProblemMeans(init, threadId);
      assert CohortIds(cohort) == CohortIds(init) + [last.base.continuationId];
      DistinctExtends(CohortIds(init), last.base.continuationId);
      assert ProblemOf(last, init, threadId).None? <==>
        IsClean(last, threadId) && last.base.continuationId !in CohortIds(init);
    }
  }

  /** Of continuations in order, only versions and deadlines can keep the receipt from its schema. */
  lemma ReceiptForFitsSchema(c: Codec, cohort: seq<Envelope>, binding: Binding)
    requires DigestsMatchPattern(c) && IsOpaqueId(binding.runId) && IsOpaqueId(binding.threadId) && cohort != []
    requires forall k | 0 <= k < |cohort| :: IsClean(cohort[k], binding.threadId)
    ensures FitsSchema(c, ReceiptFor(c, cohort, binding)) <==>
      forall k | 0 <= k < |cohort| :: MayIssue(c, cohort[k], binding.threadId)
  {
    var receipt := ReceiptFor(c, cohort, binding);
    var hash := CohortHash(c, binding.threadId, binding.runId, receipt.interrupts);
    assert receipt.cohortId[12..] == hash && Ascii("agui-cohort:") <= receipt.cohortId;
    forall k | 0 <= k < |cohort|
      ensures IssuedFitsSchema(c, receipt.interrupts[k]) <==> MayIssue(c, cohort[k], binding.threadId)
    {
      assert receipt.interrupts[k] == Issue(c, cohort[k]);
    }
  }

  /** Check and project every continuation, remembering the ids already used. */
  method ProjectCohort(continuations: seq<Envelope>, threadId: Text)
    returns (problem: Option<IssueProblem>, interrupts: seq<Interrupt>)
    ensures problem == FirstProblem(continuations, threadId)
    ensures problem.None? ==> AllProject(continuations, interrupts)
  {
    var ids: set<Id> := {};
    interrupts := [];
    for i := 0 to |continuations|
      invariant FirstProblem(continuations[..i], threadId).None?
      invariant ids == Range(CohortIds(continuations[..i]))
      invariant AllProject(continuations[..i], interrupts)
    {
      var e := continuations[i];
      OneMore(continuations, i, threadId);
      if !e.Pending? {
        return Some(NotPending), [];
      }
      if e.base.correlationId != threadId {
        return Some(BadBinding), [];
      }
      if !IsOpaqueId(e.base.continuationId) || e.base.continuationId in ids {
        return Some(BadBinding), [];
      }
      ids := ids + {e.base.continuationId};
      var contract := ParseContract(e.base.payload);
      if contract.None? {
        return Some(BadMessage), [];
      }
      var interrupt := Interrupt(e.base.continuationId, contract.value.authorization, contract.value.message,
                                 e.base.expiresAt, contract.value.responseSchema);
      interrupts := interrupts + [interrupt];
    }
    assert continuations[..|continuations|] == continuations;
    problem := None;
  }

  method IssueAguiInterrupts(c: Codec, continuations: seq<Envelope>, binding: Binding) returns (r: Issuance)
    ensures DigestsMatchPattern(c) ==> (r.Issuance? <==> Issuable(c, continuations, binding))
    ensures r.Issuance? ==>
      r.receipt == ReceiptFor(c, continuations, binding) && FitsSchema(c, r.receipt) &&
      AllProject(continuations, r.interrupts)
    ensures r.NotIssued? ==>
      r.problem ==
        if !IsOpaqueId(binding.runId) || !IsOpaqueId(binding.threadId) || continuations == [] then BadBinding
        else
          var problem := FirstProblem(continuations, binding.threadId);
          if problem.Some? then problem.value else BadMessage
  {
    NoProblemMeans(continuations, binding.threadId);
    if !IsOpaqueId(binding.runId) || !IsOpaqueId(binding.threadId) || continuations == [] {
      return NotIssued(BadBinding);
    }
    var problem, interrupts := ProjectCohort(continuations, binding.threadId);
    if problem.Some? {
      assert DigestsMatchPattern(c) ==> !Issuable(c, continuations, binding) by {
        if Issuable(c, continuations, binding) { IssuableIsClean(c, continuations, binding); }
      }
      return NotIssued(problem.value);
    }
    var receipt := ReceiptFor(c, continuations, binding);
    if DigestsMatchPattern(c) {
      ReceiptForFitsSchema(c, continuations, binding);
    }
    if !FitsSchema(c, receipt) {
      return NotIssued(BadMessage);
    }
    return Issuance(interrupts, receipt);
  }

  ghost predicate AllProject(continuations: seq<Envelope>, interrupts: seq<Interrupt>) {
    |interrupts| == |continuations| && forall k | 0 <= k < |continuations| :: Projects(continuations[k], interrupts[k])
  }

  lemma IssuableIsClean(c: Codec, cohort: seq<Envelope>, binding: Binding)
    requires Issuable(c, cohort, binding)
    ensures forall k | 0 <= k < |cohort| :: IsClean(cohort[k], binding.threadId)
  {
    forall k | 0 <= k < |cohort| ensures IsClean(cohort[k], binding.threadId) {
      assert MayIssue(c, cohort[k], binding.threadId);
    }
  }

  /** The first problem of a longer prefix, from that of a prefix without one. */
  lemma OneMore(continuations: seq<Envelope>, i: nat, threadId: Text)
    requires i < |continuations| && FirstProblem(continuations[..i], threadId).None?
    ensures var problem := ProblemOf(continuations[i], continuations[..i], threadId);
      FirstProblem(continuations[..i + 1], threadId) == problem &&
      (problem.Some? ==> FirstProblem(continuations, threadId) == problem)
    ensures Range(CohortIds(continuations[..i + 1])) ==
      Range(CohortIds(continuations[..i])) + {continuations[i].base.continuationId}
  {
    assert continuations[..i + 1][..i] == continuations[..i];
    assert CohortIds(continuations[..i + 1]) == CohortIds(continuations[..i]) + [continuations[i].base.continuationId];
    if FirstProblem(continuations[..i + 1], threadId).Some? {
      FirstProblemStays(continuations, i + 1, threadId);
    }
  }

  /** The first problem of a prefix is the first problem of the whole. */
  lemma {:induction false} FirstProblemStays(continuations: seq<Envelope>, n: nat, threadId: Text)
    requires n <= |continuations| && FirstProblem(continuations[..n], threadId).Some?
    ensures FirstProblem(continuations, threadId) == FirstProblem(continuations[..n], threadId)
    decreases |continuations| - n
  {
    if n < |continuations| {
      assert continuations[..n + 1][..n] == continuations[..n];
      FirstProblemStays(continuations, n + 1, threadId);
    } else {
      assert continuations[..n] == continuations;
    }
  }

  // ---------------------------------------------------------------- cohort validation, exactly

  lemma {:induction false} FirstMismatchExactly(
    c: Codec, threadId: Text, interrupts: seq<Issued>, byId: map<Id, Envelope>)
    ensures FirstMismatch(c, threadId, interrupts, byId).None? <==>
      forall k | 0 <= k < |interrupts| ::
        interrupts[k].continuationId in byId &&
        MatchesIssue(c, threadId, interrupts[k], byId[interrupts[k].continuationId])
  {
    if interrupts != [] {
      FirstMismatchExactly(c, threadId, interrupts[1..], byId);
      assert forall k | 1 <= k < |interrupts| :: interrupts[k] == interrupts[1..][k - 1];
    }
  }

  /** In a map built from continuations with distinct ids, everyone is found under their own id. */
  lemma {:induction false} ByIdFinds(current: seq<Envelope>, j: nat)
    requires Distinct(CohortIds(current)) && j < |current|
    ensures current[j].base.continuationId in ById(current)
    ensures ById(current)[current[j].base.continuationId] == current[j]
  {
    var init := current[..|current| - 1];
    assert CohortIds(init) == CohortIds(current)[..|current| - 1];
    if j < |init| {
      ByIdFinds(init, j);
      assert CohortIds(current)[j] != CohortIds(current)[|current| - 1];
    }
  }

  lemma PassingCohortMatches(c: Codec, r: Receipt, current: seq<Envelope>)
    requires ReceiptIsValid(c, r) && CohortError(c, r, current).None?
    ensures CohortMatches(c, r, current)
  {
    var byId, ids, issued := ById(current), CohortIds(current), IssuedIds(r.interrupts);
    DistinctWhenCounted(ids);
    DistinctWhenCounted(issued);
    assert |byId| == |byId.Keys| == |Range(ids)|;
    FirstMismatchExactly(c, r.threadId, r.interrupts, byId);
    forall id | id in Range(issued) ensures id in Range(ids) {
      var k :| 0 <= k < |issued| && issued[k] == id;
      assert r.interrupts[k].continuationId in byId;
    }
    SubsetCount(Range(issued), Range(ids));
    forall k, j | 0 <= k < |r.interrupts| && 0 <= j < |current| &&
                  current[j].base.continuationId == r.interrupts[k].continuationId
      ensures MatchesIssue(c, r.threadId, r.interrupts[k], current[j])
    {
      ByIdFinds(current, j);
    }
  }

  lemma MatchingCohortPasses(c: Codec, r: Receipt, current: seq<Envelope>)
    requires ReceiptIsValid(c, r) && CohortMatches(c, r, current)
    ensures CohortError(c, r, current).None?
  {
    var byId, ids, issued := ById(current), CohortIds(current), IssuedIds(r.interrupts);
    DistinctWhenCounted(ids);
    DistinctWhenCounted(issued);
    assert |byId| == |byId.Keys| == |Range(ids)| == |Range(issued)|;
    FirstMismatchExactly(c, r.threadId, r.interrupts, byId);
    forall k | 0 <= k < |r.interrupts|
      ensures r.interrupts[k].continuationId in byId
      ensures MatchesIssue(c, r.threadId, r.interrupts[k], byId[r.interrupts[k].continuationId])
    {
      assert issued[k] in Range(issued);
      var j :| 0 <= j < |ids| && ids[j] == issued[k];
      ByIdFinds(current, j);
    }
  }

  /** The cohort check passes exactly when issued and current interrupts pair off, each in an admissible state. */
  lemma CohortErrorExactly(c: Codec, r: Receipt, current: seq<Envelope>)
    requires ReceiptIsValid(c, r)
    ensures CohortError(c, r, current).None? <==> CohortMatches(c, r, current)
  {
    if CohortError(c, r, current).None? { PassingCohortMatches(c, r, current); }
    if CohortMatches(c, r, current) { MatchingCohortPasses(c, r, current); }
  }

  // ---------------------------------------------------------------- transitions

  ghost predicate FoldsTo(before: Envelope, events: seq<Event>, after: Envelope)
    decreases |events|
  {
    if events == [] then after == before
    else
      var next := ReduceContinuation(Some(before), events[0]);
      next.Success? && FoldsTo(next.value, events[1..], after)
  }

  /** `after` is what any number of events, none included, make of `before`. */
  ghost predicate Reaches(before: Envelope, after: Envelope) {
    exists events :: FoldsTo(before, events, after)
  }

  lemma ReachesInOneStep(before: Envelope, after: Envelope)
    requires Reaches(before, after)
    ensures after == before ||
      (before.Pending? && !after.Pending? && after.base == before.base.(version := before.base.version + 1))
  {
    var events :| FoldsTo(before, events, after);
    if events != [] {
      TransitionKeepsBase(before, events[0]);
      var next := ReduceContinuation(Some(before), events[0]).value;
      assert FoldsTo(next, events[1..], after);
      if events[1..] != [] {
        TerminalIsFinal(next, events[1..][0]);
      }
    }
  }

  ghost predicate AllReach(before: seq<Envelope>, after: seq<Envelope>) {
    |after| == |before| && forall k | 0 <= k < |before| :: Reaches(before[k], after[k])
  }

  lemma IssuedReceiptIsValid(c: Codec, cohort: seq<Envelope>, binding: Binding)
    requires DigestsMatchPattern(c) && Issuable(c, cohort, binding)
    ensures ReceiptIsValid(c, ReceiptFor(c, cohort, binding))
    ensures IssuedIds(ReceiptFor(c, cohort, binding).interrupts) == CohortIds(cohort)
  {
    IssuableIsClean(c, cohort, binding);
    ReceiptForFitsSchema(c, cohort, binding);
    DistinctWhenCounted(CohortIds(cohort));
    assert IssuedIds(ReceiptFor(c, cohort, binding).interrupts) == CohortIds(cohort);
  }

  /** One continuation still matches what was issued for it, whatever has happened to it since. */
  lemma TransitionsMatchTheIssue(c: Codec, before: Envelope, after: Envelope, threadId: Text)
    requires MayIssue(c, before, threadId) && Reaches(before, after)
    ensures MatchesIssue(c, threadId, Issue(c, before), after)
    ensures after.base.continuationId == before.base.continuationId
  {
    ReachesInOneStep(before, after);
  }

  /**
   * A receipt passes the receipt check, and the cohort it was issued for passes the cohort check: then,
   * and after any continuations of it have been resumed, cancelled or expired, in any order.
   */
  lemma IssuedReceiptPasses(
    c: Codec, cohort: seq<Envelope>, binding: Binding, later: seq<Envelope>, current: seq<Envelope>)
    requires DigestsMatchPattern(c) && Issuable(c, cohort, binding)
    requires AllReach(cohort, later) && multiset(current) == multiset(later)
    ensures var receipt := ReceiptFor(c, cohort, binding);
      ReceiptIsValid(c, receipt) && CohortError(c, receipt, current).None?
  {
    var receipt := ReceiptFor(c, cohort, binding);
    IssuedReceiptIsValid(c, cohort, binding);
    forall k | 0 <= k < |cohort|
      ensures CohortIds(later)[k] == CohortIds(cohort)[k]
      ensures MatchesIssue(c, binding.threadId, receipt.interrupts[k], later[k])
    {
      assert MayIssue(c, cohort[k], binding.threadId);
      assert receipt.interrupts[k] == Issue(c, cohort[k]);
      TransitionsMatchTheIssue(c, cohort[k], later[k], binding.threadId);
    }
    assert CohortIds(later) == CohortIds(cohort);
    MatchingInAnyOrder(c, receipt, later, current);
    CohortErrorExactly(c, receipt, current);
  }

  /** A cohort that matches place by place matches in any order. */
  lemma MatchingInAnyOrder(c: Codec, r: Receipt, later: seq<Envelope>, current: seq<Envelope>)
    requires multiset(current) == multiset(later) && CohortIds(later) == IssuedIds(r.interrupts)
    requires Distinct(CohortIds(later))
    requires |later| == |r.interrupts|
    requires forall k | 0 <= k < |later| :: MatchesIssue(c, r.threadId, r.interrupts[k], later[k])
    ensures CohortMatches(c, r, current)
  {
    SameCohortReordered(later, current);
    forall k, j | 0 <= k < |r.interrupts| && 0 <= j < |current| &&
                  current[j].base.continuationId == r.interrupts[k].continuationId
      ensures MatchesIssue(c, r.threadId, r.interrupts[k], current[j])
    {
      assert current[j] in multiset(current);
      var i :| 0 <= i < |later| && later[i] == current[j];
      assert CohortIds(later)[i] == CohortIds(later)[k];
    }
  }

  /** Reordering continuations reorders their ids. */
  lemma SameCohortReordered(a: seq<Envelope>, b: seq<Envelope>)
    requires multiset(a) == multiset(b)
    ensures Range(CohortIds(a)) == Range(CohortIds(b)) && |a| == |b|
    ensures Distinct(CohortIds(a)) <==> Distinct(CohortIds(b))
  {
    IdsFollow(a, b);
    ReorderingKeepsRange(CohortIds(a), CohortIds(b));
  }

  lemma WithoutOne(a: seq<Envelope>, k: nat)
    requires k < |a|
    ensures multiset(Without(a, k)) == multiset(a) - multiset{a[k]}
    ensures multiset(CohortIds(Without(a, k))) == multiset(CohortIds(a)) - multiset{a[k].base.continuationId}
  {
    Removing(a, k);
    Removing(CohortIds(a), k);
    assert CohortIds(Without(a, k)) == Without(CohortIds(a), k);
  }

  lemma {:induction false} IdsFollow(a: seq<Envelope>, b: seq<Envelope>)
    requires multiset(a) == multiset(b)
    ensures multiset(CohortIds(a)) == multiset(CohortIds(b))
    decreases |a|
  {
    assert |a| == |multiset(a)| == |b|;
    if a != [] {
      assert a[0] in multiset(b);
      var j :| 0 <= j < |b| && b[j] == a[0];
      WithoutOne(a, 0);
      WithoutOne(b, j);
      IdsFollow(Without(a, 0), Without(b, j));
      assert CohortIds(a)[0] == CohortIds(b)[j] == a[0].base.continuationId;
      PutBack(CohortIds(a), CohortIds(b), a[0].base.continuationId);
    }
  }
}
