/**
 * Validating an AG-UI resume batch: every issued interrupt must be answered exactly once, against the
 * continuations as they are now, before a single command is handed out.
 */
module AguiResume {
  import opened Text16
  import opened JsonText
  import opened Domain
  import opened Finite
  import opened AguiReceipt
  import opened Protocol
  import opened AguiIssue
  import opened EventLog
  import opened Preflight

  /** The payload property of an entry: missing or undefined, not JSON, or a JSON value. */
  datatype Payload = Absent | NotJson | Given(value: Json)

  datatype Entry = Entry(interruptId: Id, cancels: bool, payload: Payload)

  /** What the protocol schema makes of the raw run input. */
  datatype RunInput = RunInput(threadId: Text, resume: Option<seq<Entry>>)

  /** What the host's validator did with its copy of the payload. */
  datatype Verdict = Approves(after: Option<Json>) | Objects | Throws

  type Policy = (Envelope, Json, seq<Member>) -> Verdict

  datatype Command =
    | ResumeCommand(continuationId: Id, idempotencyKey: Text, resumePayload: Json)
    | CancelCommand(continuationId: Id, expectedVersion: int)

  datatype Batch = Commands(commands: seq<Command>) | Rejected(code: Code)

  datatype Decision = Yield(command: Command) | Deny(code: Code)

  /** What stays the same while one batch is decided: hashes, thread, clock reading and policy. */
  datatype Context = Context(codec: Codec, threadId: Text, now: Time, policy: Option<Policy>)

  function CancelReason(): Text { Ascii("agui:cancelled") }

  // ---------------------------------------------------------------- the raw input

  /** The limits a caller may set; a missing one is the default. */
  datatype Limits = Limits(maxInputDepth: Option<int>, maxInputNodes: Option<int>)

  const DEFAULT_MAX_INPUT_DEPTH := 64
  const DEFAULT_MAX_INPUT_NODES := 50_000

  function MaxDepthOf(limits: Limits): int {
    if limits.maxInputDepth.Some? then limits.maxInputDepth.value else DEFAULT_MAX_INPUT_DEPTH
  }

  function MaxNodesOf(limits: Limits): int {
    if limits.maxInputNodes.Some? then limits.maxInputNodes.value else DEFAULT_MAX_INPUT_NODES
  }

  predicate LimitsOk(limits: Limits) { 1 <= MaxDepthOf(limits) <= MAX_SAFE && 1 <= MaxNodesOf(limits) <= MAX_SAFE }

  /** The raw input may be looked at: the limits are valid and its object graph keeps to them. */
  predicate SafeInput(h: Heap, roots: seq<Value>, limits: Limits) {
    LimitsOk(limits) && Accepts(h, roots, MaxDepthOf(limits), MaxNodesOf(limits))
  }

  // ---------------------------------------------------------------- one member

  predicate PolicyAccepts(policy: Option<Policy>, continuation: Envelope, payload: Json, schema: seq<Member>) {
    policy.Some? &&
    var verdict := policy.value(continuation, payload, schema);
    verdict.Approves? && verdict.after.Some? && CanonicalJson(verdict.after.value) == CanonicalJson(payload)
  }

  function DecideCancel(x: Context, issued: Issued, continuation: Envelope, entry: Entry): Decision {
    if !entry.payload.Absent? then Deny(InvalidEntry)
    else if continuation.Resumed? || (continuation.Cancelled? && continuation.reason != Some(CancelReason())) then
      Deny(ReplayConflict)
    else if continuation.Expired? then Deny(ResumeExpired)
    else if continuation.Pending? && x.now >= continuation.base.expiresAt then Deny(ResumeExpired)
    else Yield(CancelCommand(continuation.base.continuationId, issued.issuedVersion))
  }

  function DecideResume(x: Context, continuation: Envelope, contract: Contract, entry: Entry): Decision {
    if entry.payload.Absent? || entry.payload.NotJson? then Deny(InvalidPayload)
    else if contract.authorization then Deny(InvalidEntry)
    else
      var payload := entry.payload.value;
      var id := continuation.base.continuationId;
      var key := ResumeIdempotencyKey(x.codec, x.threadId, id, payload);
      if continuation.Resumed? then
        if continuation.idempotencyKey != key ||
           CanonicalJson(continuation.resumePayload) != CanonicalJson(payload) then Deny(ReplayConflict)
        else Yield(ResumeCommand(id, key, payload))
      else if continuation.Cancelled? then Deny(ReplayConflict)
      else if continuation.Expired? || x.now >= continuation.base.expiresAt then Deny(ResumeExpired)
      else if contract.responseSchema.Some? &&
              !PolicyAccepts(x.policy, continuation, payload, contract.responseSchema.value) then Deny(InvalidPayload)
      else Yield(ResumeCommand(id, key, payload))
  }

  function Decide(x: Context, issued: Issued, continuation: Envelope, entry: Entry): Decision {
    var contract := ParseContract(continuation.base.payload);
    if contract.None? then Deny(InvalidInput)
    else if entry.cancels then DecideCancel(x, issued, continuation, entry)
    else DecideResume(x, continuation, contract.value, entry)
  }

  /** The outcome the continuation already has, if any, is the one the entry asks for. */
  predicate SameOutcome(x: Context, continuation: Envelope, entry: Entry) {
    if entry.cancels then continuation.Cancelled? && continuation.reason == Some(CancelReason())
    else
      continuation.Resumed? && entry.payload.Given? &&
      continuation.idempotencyKey ==
        ResumeIdempotencyKey(x.codec, x.threadId, continuation.base.continuationId, entry.payload.value) &&
      CanonicalJson(continuation.resumePayload) == CanonicalJson(entry.payload.value)
  }

  /** What an entry must be whatever has become of its continuation. */
  predicate WellPut(contract: Contract, entry: Entry) {
    if entry.cancels then entry.payload.Absent? else entry.payload.Given? && !contract.authorization
  }

  /** What a pending continuation asks of the clock and of the host's policy. */
  predicate OpenTo(x: Context, continuation: Envelope, contract: Contract, entry: Entry) {
    x.now < continuation.base.expiresAt &&
    (entry.payload.Given? && contract.responseSchema.Some? ==>
      PolicyAccepts(x.policy, continuation, entry.payload.value, contract.responseSchema.value))
  }

  /** An entry is admitted for a pending continuation it may settle, or for one it has settled before. */
  predicate Admissible(x: Context, continuation: Envelope, entry: Entry) {
    var contract := ParseContract(continuation.base.payload);
    contract.Some? && WellPut(contract.value, entry) &&
    if continuation.Pending? then OpenTo(x, continuation, contract.value, entry)
    else SameOutcome(x, continuation, entry)
  }

  /** The command an admitted entry stands for, which does not depend on the state of the continuation. */
  function CommandFor(x: Context, issued: Issued, entry: Entry): Command {
    if entry.cancels then CancelCommand(issued.continuationId, issued.issuedVersion)
    else
      var payload := if entry.payload.Given? then entry.payload.value else Null;
      ResumeCommand(issued.continuationId,
                    ResumeIdempotencyKey(x.codec, x.threadId, issued.continuationId, payload), payload)
  }

  lemma DecidesExactly(x: Context, issued: Issued, continuation: Envelope, entry: Entry)
    requires continuation.base.continuationId == issued.continuationId
    ensures Decide(x, issued, continuation, entry).Yield? <==> Admissible(x, continuation, entry)
    ensures Decide(x, issued, continuation, entry).Yield? ==>
      Decide(x, issued, continuation, entry).command == CommandFor(x, issued, entry)
  {
  }

  // ---------------------------------------------------------------- the whole batch

  function EntryIds(entries: seq<Entry>): (ids: seq<Id>)
    ensures |ids| == |entries| && forall k | 0 <= k < |ids| :: ids[k] == entries[k].interruptId
  {
    seq(|entries|, k requires 0 <= k < |entries| => entries[k].interruptId)
  }

  function EntriesById(entries: seq<Entry>): (m: map<Id, Entry>)
    ensures m.Keys == Range(EntryIds(entries))
    ensures forall id | id in m :: m[id] in entries && m[id].interruptId == id
  {
    if entries == [] then map[]
    else
      var init, last := entries[..|entries| - 1], entries[|entries| - 1];
      assert EntryIds(entries) == EntryIds(init) + [last.interruptId];
      EntriesById(init)[last.interruptId := last]
  }

  ghost predicate AllFound(interrupts: seq<Issued>, byId: map<Id, Envelope>, entriesById: map<Id, Entry>) {
    forall k | 0 <= k < |interrupts| ::
      interrupts[k].continuationId in byId && interrupts[k].continuationId in entriesById
  }

  /** Decide the members in receipt order; one refusal and there are no commands at all. */
  function DecideAll(x: Context, interrupts: seq<Issued>, byId: map<Id, Envelope>, entriesById: map<Id, Entry>): Batch
    requires AllFound(interrupts, byId, entriesById)
  {
    if interrupts == [] then Commands([])
    else
      var init, last := interrupts[..|interrupts| - 1], interrupts[|interrupts| - 1];
      match DecideAll(x, init, byId, entriesById)
      case Rejected(code) => Rejected(code)
      case Commands(commands) =>
        match Decide(x, last, byId[last.continuationId], entriesById[last.continuationId])
        case Deny(code) => Rejected(code)
        case Yield(command) => Commands(commands + [command])
  }

  /** After both set checks no issued interrupt can be missing from either map. */
  lemma NobodyIsMissing(c: Codec, r: Receipt, current: seq<Envelope>, entries: seq<Entry>)
    requires CohortError(c, r, current).None? && Range(EntryIds(entries)) == Range(IssuedIds(r.interrupts))
    ensures AllFound(r.interrupts, ById(current), EntriesById(entries))
  {
    FirstMismatchExactly(c, r.threadId, r.interrupts, ById(current));
    forall k | 0 <= k < |r.interrupts| ensures r.interrupts[k].continuationId in EntriesById(entries) {
      assert IssuedIds(r.interrupts)[k] in Range(IssuedIds(r.interrupts));
    }
  }

  /** What refuses a batch before any member is looked at, in the order of the checks. */
  function Refusal(
    c: Codec, safe: bool, input: Option<RunInput>, raw: Option<Receipt>, current: seq<Envelope>, now: Option<Time>)
    : Option<Code>
  {
    if !safe || input.None? || raw.None? || !ReceiptIsValid(c, raw.value) then Some(InvalidInput)
    else if CohortError(c, raw.value, current).Some? then CohortError(c, raw.value, current)
    else if input.value.threadId != raw.value.threadId then Some(ThreadMismatch)
    else if input.value.resume.None? then Some(ResumeRequired)
    else if !Distinct(EntryIds(input.value.resume.value)) then Some(DuplicateInterrupt)
    else if Range(EntryIds(input.value.resume.value)) != Range(IssuedIds(raw.value.interrupts)) then
      Some(ResumeSetMismatch)
    else if now.None? then Some(InvalidInput)
    else None
  }

  /**
   * The decision on a batch. `safe` says that the raw input is safe to look at, `input` and `raw` are what
   * the protocol schemas make of it, and `now` is the clock if it is valid.
   */
  function Validate(
    c: Codec, safe: bool, input: Option<RunInput>, raw: Option<Receipt>, current: seq<Envelope>,
    now: Option<Time>, policy: Option<Policy>): Batch
  {
    var refusal := Refusal(c, safe, input, raw, current, now);
    if refusal.Some? then Rejected(refusal.value)
    else
      NobodyIsMissing(c, raw.value, current, input.value.resume.value);
      DecideAll(Context(c, raw.value.threadId, now.value, policy), raw.value.interrupts, ById(current),
                EntriesById(input.value.resume.value))
  }

  // ---------------------------------------------------------------- the adapter's own loops

  /** File the entries under their interrupt ids; None if one id comes twice. */
  method CollectEntries(entries: seq<Entry>) returns (entriesById: Option<map<Id, Entry>>)
    ensures entriesById == if Distinct(EntryIds(entries)) then Some(EntriesById(entries)) else None
  {
    var filed: map<Id, Entry> := map[];
    for i := 0 to |entries|
      invariant filed == EntriesById(entries[..i]) && Distinct(EntryIds(entries[..i]))
    {
      var entry := entries[i];
      assert entries[..i + 1][..i] == entries[..i];
      assert EntryIds(entries[..i + 1]) == EntryIds(entries[..i]) + [entry.interruptId];
      DistinctExtends(EntryIds(entries[..i]), entry.interruptId);
      if entry.interruptId in filed {
        RepeatStays(EntryIds(entries), EntryIds(entries[..i + 1]));
        return None;
      }
      filed := filed[entry.interruptId := entry];
    }
    assert entries[..|entries|] == entries;
    return Some(filed);
  }

  lemma RepeatStays(s: seq<Id>, prefix: seq<Id>)
    requires prefix <= s && !Distinct(prefix)
    ensures !Distinct(s)
  {
    var i, j :| 0 <= i < j < |prefix| && prefix[i] == prefix[j];
    assert s[i] == s[j];
  }

  /** Decide one member after another, keeping the commands so far. */
  method DecideInOrder(x: Context, interrupts: seq<Issued>, byId: map<Id, Envelope>, entriesById: map<Id, Entry>)
    returns (batch: Batch)
    requires AllFound(interrupts, byId, entriesById)
    ensures batch == DecideAll(x, interrupts, byId, entriesById)
  {
    var commands: seq<Command> := [];
    for i := 0 to |interrupts|
      invariant AllFound(interrupts[..i], byId, entriesById)
      invariant DecideAll(x, interrupts[..i], byId, entriesById) == Commands(commands)
    {
      var issued := interrupts[i];
      var decision := Decide(x, issued, byId[issued.continuationId], entriesById[issued.continuationId]);
      assert interrupts[..i + 1][..i] == interrupts[..i];
      if decision.Deny? {
        RefusalStays(x, interrupts, i + 1, byId, entriesById);
        return Rejected(decision.code);
      }
      commands := commands + [decision.command];
    }
    assert interrupts[..|interrupts|] == interrupts;
    return Commands(commands);
  }

  lemma {:induction false} RefusalStays(
    x: Context, interrupts: seq<Issued>, n: nat, byId: map<Id, Envelope>, entriesById: map<Id, Entry>)
    requires n <= |interrupts| && AllFound(interrupts, byId, entriesById)
    requires DecideAll(x, interrupts[..n], byId, entriesById).Rejected?
    ensures DecideAll(x, interrupts, byId, entriesById) == DecideAll(x, interrupts[..n], byId, entriesById)
    decreases |interrupts| - n
  {
    if n < |interrupts| {
      assert interrupts[..n + 1][..n] == interrupts[..n];
      RefusalStays(x, interrupts, n + 1, byId, entriesById);
    } else {
      assert interrupts[..n] == interrupts;
    }
  }

  /**
   * The validation of the adapter decides as specified, for every input: the objects the caller passed,
   * by way of the preflight, and what the protocol schemas read from them.
   */
  method FromAguiRunAgentInput(
    c: Codec, h: Heap, roots: seq<Value>, limits: Limits, input: Option<RunInput>, raw: Option<Receipt>,
    current: seq<Envelope>, now: Option<Time>, policy: Option<Policy>)
    returns (batch: Batch)
    ensures batch == Validate(c, SafeInput(h, roots, limits), input, raw, current, now, policy)
  {
    if !LimitsOk(limits) {
      return Rejected(InvalidInput);
    }
    var safe, _, _ := PassesInputPreflight(h, roots, MaxDepthOf(limits), MaxNodesOf(limits));
    if !safe || input.None? {
      return Rejected(InvalidInput);
    }
    if raw.None? || !ReceiptIsValid(c, raw.value) {
      return Rejected(InvalidInput);
    }
    var receipt := raw.value;
    var mismatch := CohortError(c, receipt, current);
    if mismatch.Some? {
      return Rejected(mismatch.value);
    }
    if input.value.threadId != receipt.threadId {
      return Rejected(ThreadMismatch);
    }
    if input.value.resume.None? {
      return Rejected(ResumeRequired);
    }
    var entries := input.value.resume.value;
    var filed := CollectEntries(entries);
    if filed.None? {
      return Rejected(DuplicateInterrupt);
    }
    var issuedIds := Range(IssuedIds(receipt.interrupts));
    SetsDifferWhen(filed.value.Keys, issuedIds);
    if |filed.value.Keys| != |issuedIds| || exists id | id in filed.value.Keys :: id !in issuedIds {
      return Rejected(ResumeSetMismatch);
    }
    if now.None? {
      return Rejected(InvalidInput);
    }
    NobodyIsMissing(c, receipt, current, entries);
    batch := DecideInOrder(Context(c, receipt.threadId, now.value, policy), receipt.interrupts, ById(current),
                           filed.value);
  }

  /** Equal sizes and no stranger among the first make two sets one. */
  lemma SetsDifferWhen(a: set<Id>, b: set<Id>)
    ensures a != b <==> |a| != |b| || exists id | id in a :: id !in b
  {
    if |a| == |b| && a <= b {
      SubsetCount(a, b);
    }
    assert a <= b || exists id | id in a :: id !in b;
  }
}
