/**
 * The AG-UI side of issuing interrupts: the receipt that binds a cohort of continuations to one run,
 * its content hashes, and the checks a receipt and a reloaded cohort must pass.
 */
module AguiReceipt {
  import opened Text16
  import opened JsonText
  import opened Domain
  import opened EventLog
  import opened Finite
  import opened Protocol

  datatype Binding = Binding(runId: Text, threadId: Text)

  datatype Issued = Issued(continuationId: Id, expiresAt: Time, issuedVersion: int, payloadHash: Text)

  datatype Receipt = Receipt(threadId: Text, runId: Text, interrupts: seq<Issued>, cohortId: Text)

  datatype Interrupt =
    Interrupt(id: Id, authorization: bool, message: Text, expiresAt: Time, responseSchema: Option<seq<Member>>)

  datatype Code =
    | InvalidInput | ResumeRequired | ThreadMismatch | DuplicateInterrupt | ResumeSetMismatch
    | ResumeExpired | InvalidEntry | InvalidPayload | ReplayConflict

  datatype IssueProblem = BadBinding | NotPending | BadMessage

  datatype Issuance = Issuance(interrupts: seq<Interrupt>, receipt: Receipt) | NotIssued(problem: IssueProblem)

  // ---------------------------------------------------------------- hashes

  function IssuedJson(c: Codec, i: Issued): Json {
    Obj([Member(Ascii("continuationId"), Str(i.continuationId)),
         Member(Ascii("expiresAt"), Str(c.iso(i.expiresAt))),
         Member(Ascii("issuedVersion"), Num(Decimal(i.issuedVersion))),
         Member(Ascii("payloadHash"), Str(i.payloadHash))])
  }

  function ReceiptDescriptor(c: Codec, threadId: Text, runId: Text, interrupts: seq<Issued>): Json {
    Obj([Member(Ascii("schemaVersion"), Num([49])),
         Member(Ascii("threadId"), Str(threadId)),
         Member(Ascii("runId"), Str(runId)),
         Member(Ascii("interrupts"),
                Arr(seq(|interrupts|, k requires 0 <= k < |interrupts| => IssuedJson(c, interrupts[k]))))])
  }

  function CohortHash(c: Codec, threadId: Text, runId: Text, interrupts: seq<Issued>): Text {
    HashJson(c, Arr([Str(Ascii("agui-cohort-v1")), ReceiptDescriptor(c, threadId, runId, interrupts)]))
  }

  function CohortId(c: Codec, threadId: Text, runId: Text, interrupts: seq<Issued>): Text {
    Ascii("agui-cohort:") + CohortHash(c, threadId, runId, interrupts)
  }

  function KeyTuple(threadId: Text, interruptId: Text, payload: Json): Json {
    Arr([Str(Ascii("agui-v1")), Str(threadId), Str(interruptId), Str(Ascii("resolved")), Bool(true), payload])
  }

  function ResumeIdempotencyKey(c: Codec, threadId: Text, interruptId: Text, payload: Json): Text {
    Ascii("agui:") + HashJson(c, KeyTuple(threadId, interruptId, payload))
  }

  // ---------------------------------------------------------------- payloads

  /** What the adapter reads from a continuation payload. */
  datatype Contract = Contract(authorization: bool, message: Text, responseSchema: Option<seq<Member>>)

  function ParseContract(payload: Json): Option<Contract> {
    if !payload.Obj? then None
    else
      var kind := FieldOf(payload.fields, Ascii("kind"));
      var message := FieldOf(payload.fields, Ascii("message"));
      var schema := FieldOf(payload.fields, Ascii("responseSchema"));
      if kind.Some? && kind.value != Str(Ascii("input")) && kind.value != Str(Ascii("authorization")) then None
      else if message.None? || !message.value.Str? || message.value.s == [] then None
      else if schema.Some? && !schema.value.Obj? then None
      else Some(Contract(kind == Some(Str(Ascii("authorization"))), message.value.s,
                         if schema.Some? then Some(schema.value.fields) else None))
  }

  // ---------------------------------------------------------------- the receipt checks

  function IssuedIds(interrupts: seq<Issued>): (ids: seq<Id>)
    ensures |ids| == |interrupts| && forall k | 0 <= k < |ids| :: ids[k] == interrupts[k].continuationId
  {
    seq(|interrupts|, k requires 0 <= k < |interrupts| => interrupts[k].continuationId)
  }

  function CohortIds(current: seq<Envelope>): (ids: seq<Id>)
    ensures |ids| == |current| && forall k | 0 <= k < |ids| :: ids[k] == current[k].base.continuationId
  {
    seq(|current|, k requires 0 <= k < |current| => current[k].base.continuationId)
  }

  predicate IssuedFitsSchema(c: Codec, i: Issued) {
    IsOpaqueId(i.continuationId) && IsInstant(i.expiresAt) && 0 < i.issuedVersion <= MAX_SAFE &&
    c.isDigest(i.payloadHash)
  }

  predicate FitsSchema(c: Codec, r: Receipt) {
    IsOpaqueId(r.threadId) && IsOpaqueId(r.runId) && r.interrupts != [] &&
    Ascii("agui-cohort:") <= r.cohortId && c.isDigest(r.cohortId[12..]) &&
    forall k | 0 <= k < |r.interrupts| :: IssuedFitsSchema(c, r.interrupts[k])
  }

  predicate ReceiptIsValid(c: Codec, r: Receipt) {
    FitsSchema(c, r) && r.cohortId == CohortId(c, r.threadId, r.runId, r.interrupts) &&
    |Range(IssuedIds(r.interrupts))| == |r.interrupts|
  }

  /** `new Map` over the continuations: of two with one id the later one stays. */
  function ById(current: seq<Envelope>): (m: map<Id, Envelope>)
    ensures m.Keys == Range(CohortIds(current))
    ensures forall id | id in m :: m[id] in current && m[id].base.continuationId == id
  {
    if current == [] then map[]
    else
      var init, last := current[..|current| - 1], current[|current| - 1];
      assert CohortIds(current) == CohortIds(init) + [last.base.continuationId];
      ById(init)[last.base.continuationId := last]
  }

  predicate MatchesIssue(c: Codec, threadId: Text, issued: Issued, continuation: Envelope) {
    var base := continuation.base;
    base.correlationId == threadId && base.expiresAt == issued.expiresAt &&
    base.version == (if continuation.Pending? then issued.issuedVersion else issued.issuedVersion + 1) &&
    HashJson(c, base.payload) == issued.payloadHash
  }

  function FirstMismatch(c: Codec, threadId: Text, interrupts: seq<Issued>, byId: map<Id, Envelope>): Option<Code> {
    if interrupts == [] then None
    else if interrupts[0].continuationId !in byId then Some(ResumeSetMismatch)
    else if !MatchesIssue(c, threadId, interrupts[0], byId[interrupts[0].continuationId]) then Some(ReplayConflict)
    else FirstMismatch(c, threadId, interrupts[1..], byId)
  }

  function CohortError(c: Codec, r: Receipt, current: seq<Envelope>): Option<Code> {
    var byId := ById(current);
    if |byId| != |current| || |byId| != |r.interrupts| then Some(ResumeSetMismatch)
    else FirstMismatch(c, r.threadId, r.interrupts, byId)
  }

  /** Each issued interrupt has its own continuation in the cohort, in the state it was issued in or one step on. */
  ghost predicate CohortMatches(c: Codec, r: Receipt, current: seq<Envelope>) {
    Distinct(CohortIds(current)) && Range(CohortIds(current)) == Range(IssuedIds(r.interrupts)) &&
    forall k, j | 0 <= k < |r.interrupts| && 0 <= j < |current| ::
      current[j].base.continuationId == r.interrupts[k].continuationId ==>
        MatchesIssue(c, r.threadId, r.interrupts[k], current[j])
  }

  // ---------------------------------------------------------------- issuing

  /** What stops one continuation of the cohort from being projected, in the order of the checks. */
  function ProblemOf(continuation: Envelope, earlier: seq<Envelope>, threadId: Text): Option<IssueProblem> {
    var base := continuation.base;
    if !continuation.Pending? then Some(NotPending)
    else if base.correlationId != threadId then Some(BadBinding)
    else if !IsOpaqueId(base.continuationId) || base.continuationId in CohortIds(earlier) then Some(BadBinding)
    else if ParseContract(base.payload).None? then Some(BadMessage)
    else None
  }

  function FirstProblem(continuations: seq<Envelope>, threadId: Text): Option<IssueProblem> {
    if continuations == [] then None
    else
      var init := continuations[..|continuations| - 1];
      var problem := FirstProblem(init, threadId);
      if problem.Some? then problem else ProblemOf(continuations[|continuations| - 1], init, threadId)
  }

  function Issue(c: Codec, e: Envelope): Issued {
    Issued(e.base.continuationId, e.base.expiresAt, e.base.version, HashJson(c, e.base.payload))
  }

  function IssueAll(c: Codec, cohort: seq<Envelope>): seq<Issued> {
    seq(|cohort|, k requires 0 <= k < |cohort| => Issue(c, cohort[k]))
  }

  function ReceiptFor(c: Codec, cohort: seq<Envelope>, binding: Binding): Receipt {
    var issued := IssueAll(c, cohort);
    Receipt(binding.threadId, binding.runId, issued, CohortId(c, binding.threadId, binding.runId, issued))
  }

  predicate Projects(e: Envelope, i: Interrupt) {
    var contract := ParseContract(e.base.payload);
    contract.Some? && i == Interrupt(e.base.continuationId, contract.value.authorization, contract.value.message,
                                     e.base.expiresAt, contract.value.responseSchema)
  }
}
