/** What holds of every AG-UI batch: exactness, order independence, and safe repetition after a partial run. */
module AguiTheorems {
  import opened Text16
  import opened JsonText
  import opened Domain
  import opened Finite
  import opened AguiReceipt
  import opened Protocol
  import opened AguiIssue
  import opened AguiResume
  import opened Preflight
  import opened PreflightMeaning

  // ---------------------------------------------------------------- exactly which batches are accepted

  lemma {:induction false} DecidesAllExactly(
    x: Context, interrupts: seq<Issued>, byId: map<Id, Envelope>, entriesById: map<Id, Entry>)
    requires AllFound(interrupts, byId, entriesById)
    requires forall id | id in byId :: byId[id].base.continuationId == id
    ensures DecideAll(x, interrupts, byId, entriesById).Commands? <==>
      forall k | 0 <= k < |interrupts| ::
        Admissible(x, byId[interrupts[k].continuationId], entriesById[interrupts[k].continuationId])
    ensures DecideAll(x, interrupts, byId, entriesById).Commands? ==>
      DecideAll(x, interrupts, byId, entriesById) == Commands(CommandsFor(x, interrupts, entriesById))
  {
    if interrupts != [] {
      var init, last := interrupts[..|interrupts| - 1], interrupts[|interrupts| - 1];
      DecidesAllExactly(x, init, byId, entriesById);
      DecidesExactly(x, last, byId[last.continuationId], entriesById[last.continuationId]);
      assert forall k | 0 <= k < |init| :: init[k] == interrupts[k];
    }
  }

  ghost function CommandsFor(x: Context, interrupts: seq<Issued>, entriesById: map<Id, Entry>): (r: seq<Command>)
    requires forall k | 0 <= k < |interrupts| :: interrupts[k].continuationId in entriesById
    ensures |r| == |interrupts|
    ensures forall k | 0 <= k < |r| ::
      r[k] == CommandFor(x, interrupts[k], entriesById[interrupts[k].continuationId])
  {
    seq(|interrupts|, k requires 0 <= k < |interrupts| =>
      CommandFor(x, interrupts[k], entriesById[interrupts[k].continuationId]))
  }

  lemma {:induction false} EntryIsFound(entries: seq<Entry>, j: nat)
    requires Distinct(EntryIds(entries)) && j < |entries|
    ensures entries[j].interruptId in EntriesById(entries)
    ensures EntriesById(entries)[entries[j].interruptId] == entries[j]
  {
    var init := entries[..|entries| - 1];
    assert EntryIds(init) == EntryIds(entries)[..|entries| - 1];
    if j < |init| {
      EntryIsFound(init, j);
      assert EntryIds(entries)[j] != EntryIds(entries)[|entries| - 1];
    }
  }

  /** Issued, current and answered interrupts pair off one to one. */
  ghost predicate PairsOff(c: Codec, receipt: Receipt, current: seq<Envelope>, entries: seq<Entry>) {
    ReceiptIsValid(c, receipt) && CohortMatches(c, receipt, current) &&
    Distinct(EntryIds(entries)) && Range(EntryIds(entries)) == Range(IssuedIds(receipt.interrupts))
  }

  ghost predicate AllAdmissible(x: Context, current: seq<Envelope>, entries: seq<Entry>) {
    forall i, j | 0 <= i < |current| && 0 <= j < |entries| ::
      current[i].base.continuationId == entries[j].interruptId ==> Admissible(x, current[i], entries[j])
  }

  /** No check refuses the batch exactly when everything is there and the three sets pair off. */
  lemma NotRefusedExactly(
    c: Codec, safe: bool, input: Option<RunInput>, raw: Option<Receipt>, current: seq<Envelope>, now: Option<Time>)
    ensures Refusal(c, safe, input, raw, current, now).None? <==>
      safe && input.Some? && raw.Some? && input.value.resume.Some? && now.Some? &&
      input.value.threadId == raw.value.threadId && PairsOff(c, raw.value, current, input.value.resume.value)
  {
    if raw.Some? && ReceiptIsValid(c, raw.value) {
      CohortErrorExactly(c, raw.value, current);
      if CohortError(c, raw.value, current).Some? {
        assert !CohortMatches(c, raw.value, current);
      } else {
        assert CohortMatches(c, raw.value, current);
      }
    }
  }

  /** A batch is accepted exactly when the three sets pair off and every pair is admissible. */
  lemma AcceptedExactly(
    c: Codec, safe: bool, input: Option<RunInput>, raw: Option<Receipt>, current: seq<Envelope>, now: Option<Time>,
    policy: Option<Policy>)
    ensures Validate(c, safe, input, raw, current, now, policy).Commands? <==>
      safe && input.Some? && raw.Some? && input.value.resume.Some? && now.Some? &&
      input.value.threadId == raw.value.threadId &&
      PairsOff(c, raw.value, current, input.value.resume.value) &&
      AllAdmissible(Context(c, raw.value.threadId, now.value, policy), current, input.value.resume.value)
  {
    NotRefusedExactly(c, safe, input, raw, current, now);
    if Refusal(c, safe, input, raw, current, now).None? {
      var x := Context(c, raw.value.threadId, now.value, policy);
      var entries := input.value.resume.value;
      NobodyIsMissing(c, raw.value, current, entries);
      DecidesAllExactly(x, raw.value.interrupts, ById(current), EntriesById(entries));
      if AllAdmissible(x, current, entries) {
        PairsThroughMaps(x, raw.value.interrupts, current, entries);
      }
      if ByMapAdmissible(x, raw.value.interrupts, current, entries) {
        MapsCoverPairs(x, raw.value, current, entries);
      }
    }
  }

  ghost predicate ByMapAdmissible(x: Context, interrupts: seq<Issued>, current: seq<Envelope>, entries: seq<Entry>)
    requires AllFound(interrupts, ById(current), EntriesById(entries))
  {
    forall k | 0 <= k < |interrupts| ::
      Admissible(x, ById(current)[interrupts[k].continuationId], EntriesById(entries)[interrupts[k].continuationId])
  }

  lemma PairsThroughMaps(x: Context, interrupts: seq<Issued>, current: seq<Envelope>, entries: seq<Entry>)
    requires AllFound(interrupts, ById(current), EntriesById(entries)) && AllAdmissible(x, current, entries)
    ensures ByMapAdmissible(x, interrupts, current, entries)
  {
    forall k | 0 <= k < |interrupts|
      ensures Admissible(x, ById(current)[interrupts[k].continuationId],
                         EntriesById(entries)[interrupts[k].continuationId])
    {
      var id := interrupts[k].continuationId;
      var e, n := ById(current)[id], EntriesById(entries)[id];
      assert e in current && n in entries;
    }
  }

  lemma MapsCoverPairs(x: Context, receipt: Receipt, current: seq<Envelope>, entries: seq<Entry>)
    requires Distinct(CohortIds(current)) && Distinct(EntryIds(entries))
    requires Range(EntryIds(entries)) == Range(IssuedIds(receipt.interrupts))
    requires AllFound(receipt.interrupts, ById(current), EntriesById(entries))
    requires ByMapAdmissible(x, receipt.interrupts, current, entries)
    ensures AllAdmissible(x, current, entries)
  {
    forall i, j | 0 <= i < |current| && 0 <= j < |entries| && current[i].base.continuationId == entries[j].interruptId
      ensures Admissible(x, current[i], entries[j])
    {
      ByIdFinds(current, i);
      EntryIsFound(entries, j);
      var k := PlaceOf(IssuedIds(receipt.interrupts), EntryIds(entries), j);
      assert receipt.interrupts[k].continuationId == entries[j].interruptId;
    }
  }

  lemma PlaceOf(ids: seq<Id>, others: seq<Id>, j: nat) returns (k: nat)
    requires Range(ids) == Range(others) && j < |others|
    ensures k < |ids| && ids[k] == others[j]
  {
    assert others[j] in Range(ids);
    k :| 0 <= k < |ids| && ids[k] == others[j];
  }

  lemma AcceptedCommands(
    c: Codec, safe: bool, input: Option<RunInput>, raw: Option<Receipt>, current: seq<Envelope>, now: Option<Time>,
    policy: Option<Policy>)
    requires Validate(c, safe, input, raw, current, now, policy).Commands?
    ensures raw.Some? && input.Some? && input.value.resume.Some? && now.Some?
    ensures PairsOff(c, raw.value, current, input.value.resume.value)
    ensures AllFound(raw.value.interrupts, ById(current), EntriesById(input.value.resume.value))
    ensures Validate(c, safe, input, raw, current, now, policy) ==
      Commands(CommandsFor(Context(c, raw.value.threadId, now.value, policy), raw.value.interrupts,
                           EntriesById(input.value.resume.value)))
  {
    NotRefusedExactly(c, safe, input, raw, current, now);
    NobodyIsMissing(c, raw.value, current, input.value.resume.value);
    DecidesAllExactly(Context(c, raw.value.threadId, now.value, policy), raw.value.interrupts, ById(current),
                      EntriesById(input.value.resume.value));
  }

  /**
   * An accepted batch holds exactly one command for each issued interrupt, in receipt order: the one
   * the entry with that id stands for.
   */
  lemma OneCommandPerInterrupt(
    c: Codec, safe: bool, input: Option<RunInput>, raw: Option<Receipt>, current: seq<Envelope>, now: Option<Time>,
    policy: Option<Policy>)
    requires Validate(c, safe, input, raw, current, now, policy).Commands?
    ensures raw.Some? && input.Some? && input.value.resume.Some? && now.Some?
    ensures OneForEach(Context(c, raw.value.threadId, now.value, policy), raw.value.interrupts,
                       input.value.resume.value, Validate(c, safe, input, raw, current, now, policy).commands)
    ensures |current| == |input.value.resume.value| == |raw.value.interrupts|
  {
    AcceptedCommands(c, safe, input, raw, current, now, policy);
    var x := Context(c, raw.value.threadId, now.value, policy);
    var entries := input.value.resume.value;
    DistinctWhenCounted(IssuedIds(raw.value.interrupts));
    DistinctWhenCounted(EntryIds(entries));
    DistinctWhenCounted(CohortIds(current));
    FoundCommands(x, raw.value.interrupts, entries);
  }

  /** One command for each interrupt, in order, made from the one entry that has its id. */
  ghost predicate OneForEach(x: Context, interrupts: seq<Issued>, entries: seq<Entry>, commands: seq<Command>) {
    |commands| == |interrupts| && Distinct(IssuedIds(interrupts)) && Distinct(EntryIds(entries)) &&
    Range(IssuedIds(interrupts)) == Range(EntryIds(entries)) &&
    forall k, j | 0 <= k < |commands| && 0 <= j < |entries| ::
      entries[j].interruptId == interrupts[k].continuationId ==> commands[k] == CommandFor(x, interrupts[k], entries[j])
  }

  lemma FoundCommands(x: Context, interrupts: seq<Issued>, entries: seq<Entry>)
    requires Distinct(EntryIds(entries)) && Distinct(IssuedIds(interrupts))
    requires Range(EntryIds(entries)) == Range(IssuedIds(interrupts))
    requires forall k | 0 <= k < |interrupts| :: interrupts[k].continuationId in EntriesById(entries)
    ensures OneForEach(x, interrupts, entries, CommandsFor(x, interrupts, EntriesById(entries)))
  {
    forall k, j | 0 <= k < |interrupts| && 0 <= j < |entries| && entries[j].interruptId == interrupts[k].continuationId
      ensures CommandsFor(x, interrupts, EntriesById(entries))[k] == CommandFor(x, interrupts[k], entries[j])
    {
      EntryIsFound(entries, j);
    }
  }

  // ---------------------------------------------------------------- order

  lemma SameMapAnyOrder(a: seq<Envelope>, b: seq<Envelope>)
    requires multiset(a) == multiset(b) && Distinct(CohortIds(a))
    ensures ById(a) == ById(b)
  {
    SameCohortReordered(a, b);
    forall id | id in ById(a) ensures ById(a)[id] == ById(b)[id] {
      SameMemberAnyOrder(a, b, ById(a)[id]);
    }
  }

  lemma SameMemberAnyOrder(a: seq<Envelope>, b: seq<Envelope>, e: Envelope)
    requires multiset(a) == multiset(b) && Distinct(CohortIds(b)) && e in a
    ensures e.base.continuationId in ById(b) && ById(b)[e.base.continuationId] == e
  {
    assert e in multiset(a) && e in multiset(b);
    var j :| 0 <= j < |b| && b[j] == e;
    ByIdFinds(b, j);
  }

  lemma SameEntriesAnyOrder(a: seq<Entry>, b: seq<Entry>)
    requires multiset(a) == multiset(b) && Distinct(EntryIds(a)) && Distinct(EntryIds(b))
    requires Range(EntryIds(a)) == Range(EntryIds(b))
    ensures EntriesById(a) == EntriesById(b)
  {
    forall id | id in EntriesById(a) ensures EntriesById(a)[id] == EntriesById(b)[id] {
      var e := EntriesById(a)[id];
      assert e in multiset(a) && e in multiset(b);
      var j :| 0 <= j < |b| && b[j] == e;
      EntryIsFound(b, j);
    }
  }

  lemma WithoutOneEntry(a: seq<Entry>, k: nat)
    requires k < |a|
    ensures multiset(Without(a, k)) == multiset(a) - multiset{a[k]}
    ensures multiset(EntryIds(Without(a, k))) == multiset(EntryIds(a)) - multiset{a[k].interruptId}
  {
    Removing(a, k);
    Removing(EntryIds(a), k);
    assert EntryIds(Without(a, k)) == Without(EntryIds(a), k);
  }

  lemma {:induction false} EntryIdsFollow(a: seq<Entry>, b: seq<Entry>)
    requires multiset(a) == multiset(b)
    ensures multiset(EntryIds(a)) == multiset(EntryIds(b))
    decreases |a|
  {
    assert |a| == |multiset(a)| == |b|;
    if a != [] {
      assert a[0] in multiset(b);
      var j :| 0 <= j < |b| && b[j] == a[0];
      WithoutOneEntry(a, 0);
      WithoutOneEntry(b, j);
      EntryIdsFollow(Without(a, 0), Without(b, j));
      assert EntryIds(a)[0] == EntryIds(b)[j] == a[0].interruptId;
      PutBack(EntryIds(a), EntryIds(b), a[0].interruptId);
    }
  }

  lemma CohortErrorAnyOrder(c: Codec, r: Receipt, a: seq<Envelope>, b: seq<Envelope>)
    requires multiset(a) == multiset(b)
    ensures CohortError(c, r, a) == CohortError(c, r, b)
    ensures CohortError(c, r, a).None? ==> ById(a) == ById(b)
  {
    SameCohortReordered(a, b);
    DistinctWhenCounted(CohortIds(a));
    DistinctWhenCounted(CohortIds(b));
    assert |ById(a)| == |ById(a).Keys| && |ById(b)| == |ById(b).Keys|;
    if Distinct(CohortIds(a)) {
      SameMapAnyOrder(a, b);
    }
  }

  lemma RefusalAnyOrder(
    c: Codec, safe: bool, threadId: Text, entries: seq<Entry>, shuffled: seq<Entry>, raw: Receipt,
    current: seq<Envelope>, reordered: seq<Envelope>, now: Option<Time>)
    requires multiset(entries) == multiset(shuffled) && multiset(current) == multiset(reordered)
    ensures Refusal(c, safe, Some(RunInput(threadId, Some(entries))), Some(raw), current, now) ==
            Refusal(c, safe, Some(RunInput(threadId, Some(shuffled))), Some(raw), reordered, now)
  {
    CohortErrorAnyOrder(c, raw, current, reordered);
    EntryIdsFollow(entries, shuffled);
    ReorderingKeepsRange(EntryIds(entries), EntryIds(shuffled));
  }

  /** Neither the order of the entries nor that of the continuations changes anything, error codes included. */
  lemma OrderIsIrrelevant(
    c: Codec, safe: bool, threadId: Text, entries: seq<Entry>, shuffled: seq<Entry>, raw: Option<Receipt>,
    current: seq<Envelope>, reordered: seq<Envelope>, now: Option<Time>, policy: Option<Policy>)
    requires multiset(entries) == multiset(shuffled) && multiset(current) == multiset(reordered)
    ensures Validate(c, safe, Some(RunInput(threadId, Some(entries))), raw, current, now, policy) ==
            Validate(c, safe, Some(RunInput(threadId, Some(shuffled))), raw, reordered, now, policy)
  {
    if raw.Some? {
      RefusalAnyOrder(c, safe, threadId, entries, shuffled, raw.value, current, reordered, now);
      if Refusal(c, safe, Some(RunInput(threadId, Some(entries))), raw, current, now).None? {
        CohortErrorAnyOrder(c, raw.value, current, reordered);
        EntryIdsFollow(entries, shuffled);
        ReorderingKeepsRange(EntryIds(entries), EntryIds(shuffled));
        SameEntriesAnyOrder(entries, shuffled);
      }
    }
  }

  /**
   * So it is from the caller's side too: passing the same objects with the values of any of them in another
   * order, the entries and the continuations among them, changes nothing, the preflight included.
   */
  lemma RawOrderIsIrrelevant(
    c: Codec, h: Heap, g: Heap, roots: seq<Value>, limits: Limits, threadId: Text, entries: seq<Entry>,
    shuffled: seq<Entry>, raw: Option<Receipt>, current: seq<Envelope>, reordered: seq<Envelope>, now: Option<Time>,
    policy: Option<Policy>)
    requires Reordered(h, g) && multiset(entries) == multiset(shuffled) && multiset(current) == multiset(reordered)
    ensures
      Validate(c, SafeInput(h, roots, limits), Some(RunInput(threadId, Some(entries))), raw, current, now, policy) ==
      Validate(c, SafeInput(g, roots, limits), Some(RunInput(threadId, Some(shuffled))), raw, reordered, now, policy)
  {
    if LimitsOk(limits) {
      AcceptsInAnyOrder(h, g, roots, roots, MaxDepthOf(limits), MaxNodesOf(limits));
    }
    OrderIsIrrelevant(
      c, SafeInput(h, roots, limits), threadId, entries, shuffled, raw, current, reordered, now, policy);
  }

  // ---------------------------------------------------------------- repetition

  /** The continuation carries the outcome the command asks for. */
  ghost predicate Settled(e: Envelope, command: Command) {
    match command
    case ResumeCommand(_, key, payload) =>
      e.Resumed? && e.idempotencyKey == key && CanonicalJson(e.resumePayload) == CanonicalJson(payload)
    case CancelCommand(_, version) =>
      e.Cancelled? && e.reason == Some(CancelReason()) && e.base.version == version + 1
  }

  /** Every continuation that is no longer pending was settled by the command addressed to it. */
  ghost predicate SettledByBatch(later: seq<Envelope>, commands: seq<Command>) {
    forall i, k | 0 <= i < |later| && 0 <= k < |commands| ::
      later[i].base.continuationId == commands[k].continuationId && !later[i].Pending? ==>
        Settled(later[i], commands[k])
  }

  ghost predicate Unexpired(later: seq<Envelope>, now: Time) {
    forall i | 0 <= i < |later| :: later[i].Pending? ==> now < later[i].base.expiresAt
  }

  /** One member, before and after a transition: still admissible exactly if it was settled as asked. */
  lemma MemberSurvives(x: Context, now: Time, issued: Issued, before: Envelope, after: Envelope, entry: Entry)
    requires Admissible(x, before, entry) && Reaches(before, after)
    requires MatchesIssue(x.codec, x.threadId, issued, after) && issued.continuationId == before.base.continuationId
    requires after.Pending? ==> now < after.base.expiresAt
    ensures Admissible(x.(now := now), after, entry) <==>
      (after.Pending? || Settled(after, CommandFor(x, issued, entry)))
  {
    ReachesInOneStep(before, after);
  }

  lemma CommandAddresses(x: Context, issued: Issued, entry: Entry)
    ensures CommandFor(x, issued, entry).continuationId == issued.continuationId
  {
  }

  lemma LaterCohortPairsOff(
    c: Codec, receipt: Receipt, current: seq<Envelope>, later: seq<Envelope>, entries: seq<Entry>)
    requires PairsOff(c, receipt, current, entries) && AllReach(current, later)
    ensures PairsOff(c, receipt, later, entries)
    ensures CohortIds(later) == CohortIds(current)
  {
    forall i | 0 <= i < |current| ensures CohortIds(later)[i] == CohortIds(current)[i] {
      ReachesInOneStep(current[i], later[i]);
    }
    assert CohortIds(later) == CohortIds(current);
    forall k, i | 0 <= k < |receipt.interrupts| && 0 <= i < |later| &&
                  later[i].base.continuationId == receipt.interrupts[k].continuationId
      ensures MatchesIssue(c, receipt.threadId, receipt.interrupts[k], later[i])
    {
      assert CohortIds(later)[i] == CohortIds(current)[i];
      assert MatchesIssue(c, receipt.threadId, receipt.interrupts[k], current[i]);
      ReachesInOneStep(current[i], later[i]);
    }
  }

  /** One pair of the later cohort: admissible exactly if still pending or settled by its command. */
  lemma LaterPair(
    x: Context, now: Time, receipt: Receipt, current: seq<Envelope>, later: seq<Envelope>, entries: seq<Entry>,
    commands: seq<Command>, i: nat, j: nat, k: nat)
    requires x.threadId == receipt.threadId && AllReach(current, later) && CohortMatches(x.codec, receipt, later)
    requires AllAdmissible(x, current, entries) && OneForEach(x, receipt.interrupts, entries, commands)
    requires CohortIds(later) == CohortIds(current) && Unexpired(later, now)
    requires i < |later| && j < |entries| && k < |commands|
    requires later[i].base.continuationId == entries[j].interruptId == receipt.interrupts[k].continuationId
    ensures commands[k].continuationId == later[i].base.continuationId
    ensures Admissible(x.(now := now), later[i], entries[j]) <==> later[i].Pending? || Settled(later[i], commands[k])
  {
    CommandAddresses(x, receipt.interrupts[k], entries[j]);
    assert CohortIds(later)[i] == CohortIds(current)[i];
    MemberSurvives(x, now, receipt.interrupts[k], current[i], later[i], entries[j]);
  }

  lemma LaterPairsAreSettled(
    x: Context, now: Time, receipt: Receipt, current: seq<Envelope>, later: seq<Envelope>, entries: seq<Entry>,
    commands: seq<Command>)
    requires x.threadId == receipt.threadId && AllReach(current, later) && CohortMatches(x.codec, receipt, later)
    requires AllAdmissible(x, current, entries) && OneForEach(x, receipt.interrupts, entries, commands)
    requires CohortIds(later) == CohortIds(current) && Unexpired(later, now)
    requires AllAdmissible(x.(now := now), later, entries)
    ensures SettledByBatch(later, commands)
  {
    forall i, k | 0 <= i < |later| && 0 <= k < |commands| && !later[i].Pending? &&
                  later[i].base.continuationId == commands[k].continuationId
      ensures Settled(later[i], commands[k])
    {
      var j := PlaceOf(EntryIds(entries), IssuedIds(receipt.interrupts), k);
      CommandAddresses(x, receipt.interrupts[k], entries[j]);
      LaterPair(x, now, receipt, current, later, entries, commands, i, j, k);
    }
  }

  lemma SettledPairsAreAdmissible(
    x: Context, now: Time, receipt: Receipt, current: seq<Envelope>, later: seq<Envelope>, entries: seq<Entry>,
    commands: seq<Command>)
    requires x.threadId == receipt.threadId && AllReach(current, later) && CohortMatches(x.codec, receipt, later)
    requires AllAdmissible(x, current, entries) && OneForEach(x, receipt.interrupts, entries, commands)
    requires CohortIds(later) == CohortIds(current) && Unexpired(later, now)
    requires SettledByBatch(later, commands)
    ensures AllAdmissible(x.(now := now), later, entries)
  {
    forall i, j | 0 <= i < |later| && 0 <= j < |entries| && later[i].base.continuationId == entries[j].interruptId
      ensures Admissible(x.(now := now), later[i], entries[j])
    {
      var k := PlaceOf(IssuedIds(receipt.interrupts), EntryIds(entries), j);
      LaterPair(x, now, receipt, current, later, entries, commands, i, j, k);
    }
  }

  /**
   * Crash-safe repetition. Whatever transitions the cohort has gone through since the batch was
   * accepted, validating the same input again, with the unfinished members still unexpired, returns the
   * same commands exactly if every finished member was settled by its own command; otherwise it returns
   * none. No subset of the batch that was executed in between can make a difference.
   */
  lemma RepetitionReturnsTheBatch(
    c: Codec, input: RunInput, receipt: Receipt, current: seq<Envelope>, now: Time, policy: Option<Policy>,
    later: seq<Envelope>, laterNow: Time)
    requires Validate(c, true, Some(input), Some(receipt), current, Some(now), policy).Commands?
    requires AllReach(current, later) && Unexpired(later, laterNow)
    ensures var batch := Validate(c, true, Some(input), Some(receipt), current, Some(now), policy);
      var again := Validate(c, true, Some(input), Some(receipt), later, Some(laterNow), policy);
      if SettledByBatch(later, batch.commands) then again == batch else again.Rejected?
  {
    var x := Context(c, receipt.threadId, now, policy);
    AcceptedExactly(c, true, Some(input), Some(receipt), current, Some(now), policy);
    AcceptedExactly(c, true, Some(input), Some(receipt), later, Some(laterNow), policy);
    OneCommandPerInterrupt(c, true, Some(input), Some(receipt), current, Some(now), policy);
    var entries := input.resume.value;
    var commands := Validate(c, true, Some(input), Some(receipt), current, Some(now), policy).commands;
    LaterCohortPairsOff(c, receipt, current, later, entries);
    assert Context(c, receipt.threadId, laterNow, policy) == x.(now := laterNow);
    if AllAdmissible(x.(now := laterNow), later, entries) {
      LaterPairsAreSettled(x, laterNow, receipt, current, later, entries, commands);
      SameCommands(c, input, receipt, current, now, policy, later, laterNow);
    }
    if SettledByBatch(later, commands) {
      SettledPairsAreAdmissible(x, laterNow, receipt, current, later, entries, commands);
    }
  }

  lemma CommandIgnoresClock(x: Context, now: Time, issued: Issued, entry: Entry)
    ensures CommandFor(x.(now := now), issued, entry) == CommandFor(x, issued, entry)
  {
  }

  lemma SameCommandsFor(x: Context, now: Time, interrupts: seq<Issued>, entriesById: map<Id, Entry>)
    requires forall k | 0 <= k < |interrupts| :: interrupts[k].continuationId in entriesById
    ensures CommandsFor(x.(now := now), interrupts, entriesById) == CommandsFor(x, interrupts, entriesById)
  {
    forall k | 0 <= k < |interrupts|
      ensures CommandsFor(x.(now := now), interrupts, entriesById)[k] == CommandsFor(x, interrupts, entriesById)[k]
    {
      CommandIgnoresClock(x, now, interrupts[k], entriesById[interrupts[k].continuationId]);
    }
  }

  /** Commands do not depend on the state of the cohort or on the clock. */
  lemma SameCommands(
    c: Codec, input: RunInput, receipt: Receipt, current: seq<Envelope>, now: Time, policy: Option<Policy>,
    later: seq<Envelope>, laterNow: Time)
    requires Validate(c, true, Some(input), Some(receipt), current, Some(now), policy).Commands?
    requires Validate(c, true, Some(input), Some(receipt), later, Some(laterNow), policy).Commands?
    ensures Validate(c, true, Some(input), Some(receipt), current, Some(now), policy) ==
            Validate(c, true, Some(input), Some(receipt), later, Some(laterNow), policy)
  {
    AcceptedCommands(c, true, Some(input), Some(receipt), current, Some(now), policy);
    AcceptedCommands(c, true, Some(input), Some(receipt), later, Some(laterNow), policy);
    SameCommandsFor(Context(c, receipt.threadId, now, policy), laterNow, receipt.interrupts,
                    EntriesById(input.resume.value));
  }
}
