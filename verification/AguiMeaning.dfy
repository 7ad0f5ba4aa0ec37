/**
 * What the AG-UI adapter reads and writes, member by member: continuation payloads and what follows from
 * them, the receipts it takes back, and the JSON that its hashes are taken of.
 */
module AguiMeaning {
  import opened Text16
  import opened JsonText
  import opened JsonEquality
  import opened Domain
  import opened EventLog
  import opened Finite
  import opened Protocol
  import opened AguiReceipt
  import opened AguiIssue
  import opened AguiHashes
  import opened AguiResume
  import opened Preflight
  import opened PreflightMeaning

  // ---------------------------------------------------------------- payloads

  /** An input or an authorization, with a message, whose response schema, if any, is an object. */
  ghost predicate Projectable(payload: Json) {
    payload.Obj? && (AsksInput(payload) || AsksAuthorization(payload)) &&
    (exists message :: HasMessage(payload, message)) &&
    forall schema | Has(payload, Ascii("responseSchema"), schema) :: schema.Obj?
  }

  /** Exactly which payloads can be projected. */
  lemma ProjectableExactly(payload: Json)
    requires WellFormed(payload)
    ensures ParseContract(payload).Some? <==> Projectable(payload)
  {
    if payload.Obj? {
      PayloadMembers(payload);
      var message := FieldOf(payload.fields, Ascii("message"));
      if message.Some? && message.value.Str? && message.value.s != [] {
        assert HasMessage(payload, message.value.s);
      }
    }
  }

  /** What is read from a payload that can be projected. */
  ghost predicate Reads(payload: Json, authorization: bool, message: Text, responseSchema: Option<seq<Member>>) {
    (authorization <==> AsksAuthorization(payload)) && HasMessage(payload, message) &&
    match responseSchema
    case Some(fields) => Has(payload, Ascii("responseSchema"), Obj(fields))
    case None => Lacks(payload, Ascii("responseSchema"))
  }

  lemma ContractMeans(payload: Json)
    requires WellFormed(payload) && ParseContract(payload).Some?
    ensures var contract := ParseContract(payload).value;
      Reads(payload, contract.authorization, contract.message, contract.responseSchema)
  {
    PayloadMembers(payload);
  }

  // ---------------------------------------------------------------- what follows from a payload

  /** The interrupt of a continuation: its id and deadline, and what its payload holds. */
  ghost predicate Announces(e: Envelope, i: Interrupt) {
    i.id == e.base.continuationId && i.expiresAt == e.base.expiresAt &&
    Reads(e.base.payload, i.authorization, i.message, i.responseSchema)
  }

  /** Each issued interrupt says what its continuation's payload says, the reason included. */
  lemma InterruptsSayWhatPayloadsSay(cohort: seq<Envelope>, interrupts: seq<Interrupt>)
    requires AllProject(cohort, interrupts) && forall k | 0 <= k < |cohort| :: WellFormed(cohort[k].base.payload)
    ensures |interrupts| == |cohort| && forall k | 0 <= k < |cohort| :: Announces(cohort[k], interrupts[k])
  {
    forall k | 0 <= k < |cohort| ensures Announces(cohort[k], interrupts[k]) {
      assert Projects(cohort[k], interrupts[k]);
      ContractMeans(cohort[k].base.payload);
    }
  }

  /** The k-th continuation of a cohort is the first that cannot be issued, for this problem. */
  ghost predicate FailsAt(cohort: seq<Envelope>, threadId: Text, k: int, problem: IssueProblem) {
    0 <= k < |cohort| && (forall i | 0 <= i < k :: IsClean(cohort[i], threadId)) &&
    var e := cohort[k];
    match problem
    case NotPending => !e.Pending?
    case BadBinding =>
      e.Pending? &&
      (e.base.correlationId != threadId || !Trimmed(e.base.continuationId) ||
       exists i | 0 <= i < k :: cohort[i].base.continuationId == e.base.continuationId)
    case BadMessage => e.Pending? && e.base.correlationId == threadId && !Projectable(e.base.payload)
  }

  /** The problem of a cohort is that of its first member that has one. */
  lemma {:induction false} ProblemsAreTrue(cohort: seq<Envelope>, threadId: Text)
    requires FirstProblem(cohort, threadId).Some?
    requires forall k | 0 <= k < |cohort| :: WellFormed(cohort[k].base.payload)
    ensures exists k :: FailsAt(cohort, threadId, k, FirstProblem(cohort, threadId).value)
  {
    var init, last := cohort[..|cohort| - 1], cohort[|cohort| - 1];
    var problem := FirstProblem(cohort, threadId).value;
    if FirstProblem(init, threadId).Some? {
      ProblemsAreTrue(init, threadId);
      var k :| FailsAt(init, threadId, k, problem);
      assert init[k] == cohort[k] && forall i | 0 <= i < k :: init[i] == cohort[i];
      assert FailsAt(cohort, threadId, k, problem);
    } else {
      NoProblemMeans(init, threadId);
      OpaqueMeansTrimmed(last.base.continuationId);
      ProjectableExactly(last.base.payload);
      assert forall i | 0 <= i < |init| :: init[i] == cohort[i] && CohortIds(init)[i] == cohort[i].base.continuationId;
      assert FailsAt(cohort, threadId, |init|, problem);
    }
  }

  /** What an entry must hold, by the payload of the continuation it answers. */
  ghost predicate PutRight(payload: Json, entry: Entry) {
    if entry.cancels then entry.payload.Absent? else entry.payload.Given? && !AsksAuthorization(payload)
  }

  /** The host's validator approved of the answer under the schema of the payload, and left the answer alone. */
  ghost predicate Approved(policy: Option<Policy>, e: Envelope, answer: Json, schema: seq<Member>) {
    policy.Some? && exists after ::
      policy.value(e, answer, schema) == Approves(Some(after)) && CanonicalJson(after) == CanonicalJson(answer)
  }

  /** A pending continuation is answered in time, and to the host's satisfaction if its payload has a schema. */
  ghost predicate Answers(x: Context, e: Envelope, entry: Entry) {
    x.now < e.base.expiresAt &&
    (entry.payload.Given? ==>
      forall schema | Has(e.base.payload, Ascii("responseSchema"), Obj(schema)) ::
        Approved(x.policy, e, entry.payload.value, schema))
  }

  /** A closed continuation was closed by the very decision that the entry asks for. */
  ghost predicate WasDecidedSo(x: Context, e: Envelope, entry: Entry) {
    if entry.cancels then e.Cancelled? && e.reason == Some(Ascii("agui:cancelled"))
    else
      e.Resumed? && entry.payload.Given? && CanonicalJson(e.resumePayload) == CanonicalJson(entry.payload.value) &&
      e.idempotencyKey == ResumeIdempotencyKey(x.codec, x.threadId, e.base.continuationId, entry.payload.value)
  }

  lemma ApprovedExactly(policy: Option<Policy>, e: Envelope, answer: Json, schema: seq<Member>)
    ensures PolicyAccepts(policy, e, answer, schema) <==> Approved(policy, e, answer, schema)
  {
    if PolicyAccepts(policy, e, answer, schema) {
      var after := policy.value(e, answer, schema).after.value;
      assert policy.value(e, answer, schema) == Approves(Some(after));
    }
  }

  lemma OpenExactly(x: Context, e: Envelope, entry: Entry)
    requires WellFormed(e.base.payload) && ParseContract(e.base.payload).Some?
    ensures OpenTo(x, e, ParseContract(e.base.payload).value, entry) <==> Answers(x, e, entry)
  {
    ContractMeans(e.base.payload);
    var contract := ParseContract(e.base.payload).value;
    PayloadMembers(e.base.payload);
    if entry.payload.Given? && contract.responseSchema.Some? {
      ApprovedExactly(x.policy, e, entry.payload.value, contract.responseSchema.value);
    }
  }

  /**
   * Which entries a continuation admits, by its payload's members: an authorization is never resolved with a
   * payload, and an input only with one.
   */
  lemma AdmissibleByPayload(x: Context, e: Envelope, entry: Entry)
    requires WellFormed(e.base.payload)
    ensures Admissible(x, e, entry) <==>
      Projectable(e.base.payload) && PutRight(e.base.payload, entry) &&
      if e.Pending? then Answers(x, e, entry) else WasDecidedSo(x, e, entry)
  {
    ProjectableExactly(e.base.payload);
    if ParseContract(e.base.payload).Some? {
      ContractMeans(e.base.payload);
      OpenExactly(x, e, entry);
    }
  }

  // ---------------------------------------------------------------- why an entry is refused

  /** What each code says of the entry that was refused with it. */
  ghost predicate EntryReason(x: Context, e: Envelope, entry: Entry, code: Code) {
    match code
    case InvalidInput => !Projectable(e.base.payload)
    case InvalidEntry =>
      if entry.cancels then !entry.payload.Absent? else entry.payload.Given? && AsksAuthorization(e.base.payload)
    case InvalidPayload => !entry.cancels && (!entry.payload.Given? || (e.Pending? && x.now < e.base.expiresAt))
    case ReplayConflict => (e.Resumed? || e.Cancelled?) && !WasDecidedSo(x, e, entry)
    case ResumeExpired => e.Expired? || (e.Pending? && x.now >= e.base.expiresAt)
    case _ => false
  }

  lemma DenialsAreTrue(x: Context, issued: Issued, e: Envelope, entry: Entry)
    requires WellFormed(e.base.payload) && Decide(x, issued, e, entry).Deny?
    ensures EntryReason(x, e, entry, Decide(x, issued, e, entry).code)
  {
    ProjectableExactly(e.base.payload);
    if ParseContract(e.base.payload).Some? {
      ContractMeans(e.base.payload);
    }
  }

  // ---------------------------------------------------------------- receipts

  ghost predicate IssuedIsRight(c: Codec, i: Issued) {
    Trimmed(i.continuationId) && IsInstant(i.expiresAt) && 1 <= i.issuedVersion <= 9_007_199_254_740_991 &&
    c.isDigest(i.payloadHash)
  }

  /** A receipt in good order: its own cohort id, and at least one member, none of them twice. */
  ghost predicate ReceiptIsRight(c: Codec, r: Receipt) {
    Trimmed(r.threadId) && Trimmed(r.runId) && r.interrupts != [] && Distinct(IssuedIds(r.interrupts)) &&
    (forall k | 0 <= k < |r.interrupts| :: IssuedIsRight(c, r.interrupts[k])) &&
    exists digest ::
      c.isDigest(digest) && r.cohortId == Ascii("agui-cohort:") + digest &&
      digest == CohortHash(c, r.threadId, r.runId, r.interrupts)
  }

  lemma IssuedIsRightExactly(c: Codec, i: Issued)
    ensures IssuedFitsSchema(c, i) <==> IssuedIsRight(c, i)
  {
    OpaqueMeansTrimmed(i.continuationId);
  }

  lemma ReceiptIsValidExactly(c: Codec, r: Receipt)
    ensures ReceiptIsValid(c, r) <==> ReceiptIsRight(c, r)
  {
    OpaqueMeansTrimmed(r.threadId);
    OpaqueMeansTrimmed(r.runId);
    DistinctWhenCounted(IssuedIds(r.interrupts));
    forall k | 0 <= k < |r.interrupts|
      ensures IssuedFitsSchema(c, r.interrupts[k]) <==> IssuedIsRight(c, r.interrupts[k])
    {
      IssuedIsRightExactly(c, r.interrupts[k]);
    }
    var digest := CohortHash(c, r.threadId, r.runId, r.interrupts);
    assert (Ascii("agui-cohort:") + digest)[12..] == digest;
  }

  /**
   * Without collisions, a receipt that keeps the cohort id of an issued one yields commands only if it is that
   * receipt: one altered in its thread, its run, or any member, or with members dropped, added or in another
   * order, is refused as invalid input.
   */
  lemma AlteredReceiptIsRefused(
    c: Codec, safe: bool, input: Option<RunInput>, r: Receipt, current: seq<Envelope>, now: Option<Time>,
    policy: Option<Policy>, cohort: seq<Envelope>, binding: Binding)
    requires Injective(c) && r.cohortId == ReceiptFor(c, cohort, binding).cohortId
    ensures r != ReceiptFor(c, cohort, binding) ==>
      Validate(c, safe, input, Some(r), current, now, policy) == Rejected(InvalidInput)
    ensures Validate(c, safe, input, Some(r), current, now, policy).Commands? ==> r == ReceiptFor(c, cohort, binding)
  {
    if ReceiptIsValid(c, r) {
      CohortIdPinsTheReceipt(c, r, ReceiptFor(c, cohort, binding));
    }
  }

  // ---------------------------------------------------------------- what is hashed

  ghost predicate IssuedIsWritten(c: Codec, i: Issued, v: Json) {
    Has(v, Ascii("continuationId"), Str(i.continuationId)) && Has(v, Ascii("expiresAt"), Str(c.iso(i.expiresAt))) &&
    Has(v, Ascii("issuedVersion"), Num(Decimal(i.issuedVersion))) && Has(v, Ascii("payloadHash"), Str(i.payloadHash))
  }

  ghost predicate AllWritten(c: Codec, interrupts: seq<Issued>, list: Json) {
    list.Arr? && |list.items| == |interrupts| &&
    forall k | 0 <= k < |interrupts| :: IssuedIsWritten(c, interrupts[k], list.items[k])
  }

  /** The receipt without its cohort id, member by member. */
  ghost predicate ReceiptIsWritten(c: Codec, r: Receipt, v: Json) {
    WellFormed(v) && Has(v, Ascii("schemaVersion"), Num([49])) &&
    Has(v, Ascii("threadId"), Str(r.threadId)) && Has(v, Ascii("runId"), Str(r.runId)) &&
    exists list :: Has(v, Ascii("interrupts"), list) && AllWritten(c, r.interrupts, list)
  }

  lemma IssuedMembers(c: Codec, i: Issued)
    ensures IssuedIsWritten(c, i, IssuedJson(c, i))
  {
    var v := IssuedJson(c, i);
    MemberAt(v, 0);
    MemberAt(v, 1);
    MemberAt(v, 2);
    MemberAt(v, 3);
  }

  lemma ReceiptMembers(c: Codec, r: Receipt)
    ensures ReceiptIsWritten(c, r, ReceiptDescriptor(c, r.threadId, r.runId, r.interrupts))
  {
    var v := ReceiptDescriptor(c, r.threadId, r.runId, r.interrupts);
    DescriptorKeys(c, r.threadId, r.runId, r.interrupts);
    MemberAt(v, 0);
    MemberAt(v, 1);
    MemberAt(v, 2);
    MemberAt(v, 3);
    forall k | 0 <= k < |r.interrupts| ensures IssuedIsWritten(c, r.interrupts[k], v.fields[3].value.items[k]) {
      IssuedMembers(c, r.interrupts[k]);
    }
  }

  /** A cohort id is the tagged hash of its receipt, and a resume key that of the decision it stands for. */
  lemma HashesAreOfWhatTheyName(c: Codec, r: Receipt, id: Id, answer: Json)
    ensures exists v ::
      ReceiptIsWritten(c, r, v) &&
      CohortId(c, r.threadId, r.runId, r.interrupts) ==
        Ascii("agui-cohort:") + c.sha(CanonicalJson(Arr([Str(Ascii("agui-cohort-v1")), v])))
    ensures ResumeIdempotencyKey(c, r.threadId, id, answer) ==
      Ascii("agui:") + c.sha(CanonicalJson(Arr([
        Str(Ascii("agui-v1")), Str(r.threadId), Str(id), Str(Ascii("resolved")), Bool(true), answer])))
  {
    ReceiptMembers(c, r);
  }

  // ---------------------------------------------------------------- the raw input

  predicate IsLimit(n: int) { 1 <= n <= 9_007_199_254_740_991 }

  /** The input unfolds to trees of at most this depth, with at most so many nodes together. */
  ghost predicate KeepsTo(h: Heap, roots: seq<Value>, depth: nat, nodes: nat) {
    exists ts :: UnfoldAll(h, roots, ts) && AllShallow(ts, depth) && NodesOf(ts) <= nodes
  }

  /** Input is looked at exactly if the limits are positive and safe and it unfolds to trees that keep to them. */
  lemma SafeInputExactly(h: Heap, roots: seq<Value>, limits: Limits)
    ensures
      var depth := if limits.maxInputDepth.Some? then limits.maxInputDepth.value else 64;
      var nodes := if limits.maxInputNodes.Some? then limits.maxInputNodes.value else 50_000;
      SafeInput(h, roots, limits) <==> IsLimit(depth) && IsLimit(nodes) && KeepsTo(h, roots, depth, nodes)
  {
    if LimitsOk(limits) {
      AcceptsMeasuresTheUnfolding(h, roots, MaxDepthOf(limits), MaxNodesOf(limits));
    }
  }

  // ---------------------------------------------------------------- why a batch is refused

  /** What a batch is refused for before any member is looked at. */
  ghost predicate BatchReason(
    c: Codec, safe: bool, input: Option<RunInput>, raw: Option<Receipt>, current: seq<Envelope>, now: Option<Time>,
    code: Code)
  {
    match code
    case InvalidInput => !safe || input.None? || raw.None? || !ReceiptIsRight(c, raw.value) || now.None?
    case ResumeSetMismatch =>
      raw.Some? &&
      (!Distinct(CohortIds(current)) || Range(CohortIds(current)) != Range(IssuedIds(raw.value.interrupts)) ||
       (input.Some? && input.value.resume.Some? &&
        Range(EntryIds(input.value.resume.value)) != Range(IssuedIds(raw.value.interrupts))))
    case ReplayConflict =>
      raw.Some? && exists k, j ::
        0 <= k < |raw.value.interrupts| && 0 <= j < |current| && IsNoLonger(c, raw.value, k, current[j])
    case ThreadMismatch => input.Some? && raw.Some? && input.value.threadId != raw.value.threadId
    case ResumeRequired => input.Some? && input.value.resume.None?
    case DuplicateInterrupt =>
      input.Some? && input.value.resume.Some? && !Distinct(EntryIds(input.value.resume.value))
    case _ => false
  }

  /** The continuation has the id of the k-th member and is not what was issued, nor one transition on. */
  ghost predicate IsNoLonger(c: Codec, r: Receipt, k: nat, e: Envelope)
    requires k < |r.interrupts|
  {
    var issued := r.interrupts[k];
    e.base.continuationId == issued.continuationId &&
    !(e.base.correlationId == r.threadId && e.base.expiresAt == issued.expiresAt &&
      HashJson(c, e.base.payload) == issued.payloadHash &&
      e.base.version == if e.Pending? then issued.issuedVersion else issued.issuedVersion + 1)
  }

  /** The first member that the cohort check trips over: it is missing, or no longer what it was. */
  lemma {:induction false} FirstMismatchMeans(c: Codec, r: Receipt, n: nat, byId: map<Id, Envelope>)
    requires n <= |r.interrupts| && FirstMismatch(c, r.threadId, r.interrupts[n..], byId).Some?
    requires forall id | id in byId :: byId[id].base.continuationId == id
    ensures var code := FirstMismatch(c, r.threadId, r.interrupts[n..], byId).value;
      (code == ResumeSetMismatch && exists k | n <= k < |r.interrupts| :: r.interrupts[k].continuationId !in byId) ||
      (code == ReplayConflict && exists k | n <= k < |r.interrupts| ::
        r.interrupts[k].continuationId in byId && IsNoLonger(c, r, k, byId[r.interrupts[k].continuationId]))
    decreases |r.interrupts| - n
  {
    var id := r.interrupts[n].continuationId;
    assert r.interrupts[n..][0] == r.interrupts[n] && r.interrupts[n..][1..] == r.interrupts[n + 1..];
    if id in byId && MatchesIssue(c, r.threadId, r.interrupts[n], byId[id]) {
      FirstMismatchMeans(c, r, n + 1, byId);
    }
  }

  lemma CohortErrorMeans(
    c: Codec, safe: bool, input: Option<RunInput>, r: Receipt, current: seq<Envelope>, now: Option<Time>)
    requires ReceiptIsValid(c, r) && CohortError(c, r, current).Some?
    ensures BatchReason(c, safe, input, Some(r), current, now, CohortError(c, r, current).value)
  {
    var byId, ids, issued := ById(current), CohortIds(current), IssuedIds(r.interrupts);
    DistinctWhenCounted(ids);
    DistinctWhenCounted(issued);
    assert |byId| == |byId.Keys| == |Range(ids)|;
    if |byId| == |current| && |byId| == |r.interrupts| {
      assert r.interrupts[0..] == r.interrupts;
      FirstMismatchMeans(c, r, 0, byId);
      if CohortError(c, r, current) == Some(ResumeSetMismatch) {
        var k :| 0 <= k < |r.interrupts| && r.interrupts[k].continuationId !in byId;
        assert issued[k] in Range(issued) && issued[k] !in Range(ids);
      } else {
        var k :| 0 <= k < |r.interrupts| && r.interrupts[k].continuationId in byId &&
          IsNoLonger(c, r, k, byId[r.interrupts[k].continuationId]);
        var j :| 0 <= j < |current| && current[j] == byId[r.interrupts[k].continuationId];
        assert IsNoLonger(c, r, k, current[j]);
      }
    }
  }

  lemma RefusalsAreTrue(
    c: Codec, safe: bool, input: Option<RunInput>, raw: Option<Receipt>, current: seq<Envelope>, now: Option<Time>)
    requires Refusal(c, safe, input, raw, current, now).Some?
    ensures BatchReason(c, safe, input, raw, current, now, Refusal(c, safe, input, raw, current, now).value)
  {
    if raw.Some? {
      ReceiptIsValidExactly(c, raw.value);
      if safe && input.Some? && ReceiptIsValid(c, raw.value) && CohortError(c, raw.value, current).Some? {
        CohortErrorMeans(c, safe, input, raw.value, current, now);
      }
    }
  }

  lemma {:induction false} DeniedMember(
    x: Context, interrupts: seq<Issued>, byId: map<Id, Envelope>, entriesById: map<Id, Entry>) returns (id: Id)
    requires AllFound(interrupts, byId, entriesById) && DecideAll(x, interrupts, byId, entriesById).Rejected?
    requires forall i | i in byId :: WellFormed(byId[i].base.payload)
    ensures id in byId && id in entriesById
    ensures EntryReason(x, byId[id], entriesById[id], DecideAll(x, interrupts, byId, entriesById).code)
  {
    var init, last := interrupts[..|interrupts| - 1], interrupts[|interrupts| - 1];
    if DecideAll(x, init, byId, entriesById).Rejected? {
      id := DeniedMember(x, init, byId, entriesById);
    } else {
      id := last.continuationId;
      DenialsAreTrue(x, last, byId[id], entriesById[id]);
    }
  }

  ghost predicate SomeEntryReason(x: Context, current: seq<Envelope>, entries: seq<Entry>, code: Code) {
    exists i, j :: 0 <= i < |current| && 0 <= j < |entries| &&
      current[i].base.continuationId == entries[j].interruptId && EntryReason(x, current[i], entries[j], code)
  }

  lemma DeniedForSomeEntry(x: Context, interrupts: seq<Issued>, current: seq<Envelope>, entries: seq<Entry>)
    requires AllFound(interrupts, ById(current), EntriesById(entries))
    requires DecideAll(x, interrupts, ById(current), EntriesById(entries)).Rejected?
    requires forall i | 0 <= i < |current| :: WellFormed(current[i].base.payload)
    ensures SomeEntryReason(x, current, entries,
                            DecideAll(x, interrupts, ById(current), EntriesById(entries)).code)
  {
    var id := DeniedMember(x, interrupts, ById(current), EntriesById(entries));
    var i :| 0 <= i < |current| && current[i] == ById(current)[id];
    var j :| 0 <= j < |entries| && entries[j] == EntriesById(entries)[id];
    assert current[i].base.continuationId == entries[j].interruptId;
  }

  /** A batch is refused for what its code says, of the batch or of the entry for one member of the cohort. */
  lemma RejectionsAreTrue(
    c: Codec, safe: bool, input: Option<RunInput>, raw: Option<Receipt>, current: seq<Envelope>, now: Option<Time>,
    policy: Option<Policy>, code: Code)
    requires Validate(c, safe, input, raw, current, now, policy) == Rejected(code)
    requires forall i | 0 <= i < |current| :: WellFormed(current[i].base.payload)
    ensures BatchReason(c, safe, input, raw, current, now, code) ||
      (input.Some? && input.value.resume.Some? && raw.Some? && now.Some? &&
       SomeEntryReason(Context(c, raw.value.threadId, now.value, policy), current, input.value.resume.value, code))
  {
    if Refusal(c, safe, input, raw, current, now).Some? {
      RefusalsAreTrue(c, safe, input, raw, current, now);
    } else {
      var entries := input.value.resume.value;
      NobodyIsMissing(c, raw.value, current, entries);
      DeniedForSomeEntry(Context(c, raw.value.threadId, now.value, policy), raw.value.interrupts, current, entries);
    }
  }
}
