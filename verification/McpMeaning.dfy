/**
 * What MCP elicitation means, member by member: which payloads can be projected, what an issued request
 * says, which check refuses the rest, and which requests are taken back.
 */
module McpMeaning {
  import opened Text16
  import opened JsonText
  import opened JsonEquality
  import opened Domain
  import opened Protocol
  import opened McpElicitation
  import opened McpTheorems

  // ---------------------------------------------------------------- payloads

  /** An authorization without a form schema, or an input whose form schema, if any, is accepted; with a message. */
  ghost predicate Projectable(a: Adapter, payload: Json) {
    payload.Obj? && (exists message :: HasMessage(payload, message)) &&
    if AsksAuthorization(payload) then Lacks(payload, Ascii("responseSchema"))
    else
      AsksInput(payload) &&
      forall schema | Has(payload, Ascii("responseSchema"), schema) :: FormIsAccepted(a, schema)
  }

  /** The form that a payload asks to be filled: its schema, or an object without properties. */
  ghost predicate AsksForForm(payload: Json, schema: Json) {
    Has(payload, Ascii("responseSchema"), schema) ||
    (Lacks(payload, Ascii("responseSchema")) &&
     schema == Obj([Member(Ascii("type"), Str(Ascii("object"))), Member(Ascii("properties"), Obj([]))]))
  }

  lemma AuthorizationIsNotInput(payload: Json)
    requires WellFormed(payload) && AsksAuthorization(payload)
    ensures !AsksInput(payload)
  {
    PayloadMembers(payload);
    assert |Ascii("authorization")| != |Ascii("input")|;
  }

  /** Exactly which payloads can be projected. */
  lemma ProjectableExactly(a: Adapter, payload: Json)
    requires WellFormed(payload)
    ensures ParseContract(a, payload).Some? <==> Projectable(a, payload)
  {
    if payload.Obj? {
      PayloadMembers(payload);
      if AsksAuthorization(payload) { AuthorizationIsNotInput(payload); }
      var message := FieldOf(payload.fields, Ascii("message"));
      if message.Some? && message.value.Str? && message.value.s != [] {
        assert HasMessage(payload, message.value.s);
      }
    }
  }

  /** What is read from a payload that can be projected. */
  lemma ContractMeans(a: Adapter, payload: Json)
    requires WellFormed(payload) && ParseContract(a, payload).Some?
    ensures var contract := ParseContract(a, payload).value;
      (contract.authorization <==> AsksAuthorization(payload)) && HasMessage(payload, contract.message) &&
      (!contract.authorization ==> AsksForForm(payload, FormOf(contract)))
  {
    PayloadMembers(payload);
  }

  // ---------------------------------------------------------------- what an issued request says

  /** The texts of an issued request are those of its continuation and its context, each in its place. */
  ghost predicate CarriesContext(e: Envelope, x: ProjectionContext, r: Request) {
    r.id == x.requestId && HasMessage(e.base.payload, r.message) &&
    r.meta.continuationId == e.base.continuationId && r.meta.correlationId == e.base.correlationId &&
    r.meta.expiresAt == e.base.expiresAt && r.meta.requestId == x.requestId && r.meta.relatedTask == x.relatedTask &&
    (r.UrlRequest? <==> AsksAuthorization(e.base.payload)) &&
    (r.UrlRequest? ==>
      x.urlBinding.Some? && r.elicitationId == x.urlBinding.value.elicitationId && r.url == x.urlBinding.value.url) &&
    (r.FormRequest? ==> x.urlBinding.None? && AsksForForm(e.base.payload, r.requestedSchema))
  }

  lemma ProjectedCarriesContext(a: Adapter, e: Envelope, x: ProjectionContext)
    requires WellFormed(e.base.payload) && ToMcpElicitRequest(a, e, x).Projected?
    ensures CarriesContext(e, x, ToMcpElicitRequest(a, e, x).request)
  {
    ContractMeans(a, e.base.payload);
  }

  ghost predicate ReceiptCarries(c: Codec, e: Envelope, x: ProjectionContext, r: Request, receipt: Receipt) {
    receipt.continuationId == e.base.continuationId && receipt.correlationId == e.base.correlationId &&
    receipt.requestId == x.requestId && (receipt.mode == UrlMode <==> r.UrlRequest?) &&
    receipt.requestHash == RequestHash(c, r)
  }

  /** Whatever is issued carries its continuation's and its context's texts, and so does its receipt. */
  lemma IssuedCarriesItsContext(a: Adapter, e: Envelope, x: ProjectionContext)
    requires WellFormed(e.base.payload) && IssueMcpElicitation(a, e, x).Issuance?
    ensures var issued := IssueMcpElicitation(a, e, x);
      CarriesContext(e, x, issued.request) && ReceiptCarries(a.codec, e, x, issued.request, issued.receipt)
  {
    ProjectedCarriesContext(a, e, x);
  }

  // ---------------------------------------------------------------- which check refuses the rest

  /** The first of the checks of issuing that does not pass names the problem. */
  function FirstProblem(
    pending: bool, projectable: bool, contextFits: bool, supported: bool, bound: bool, idsFit: bool): Option<Problem>
  {
    if !pending then Some(BadTransition)
    else if !projectable then Some(BadMessage)
    else if !contextFits then Some(BadBinding)
    else if !supported then Some(UnsupportedCapability)
    else if !bound then Some(BadBinding)
    else if !idsFit then Some(BadMessage)
    else None
  }

  ghost predicate IdFits(id: RequestId) {
    match id
    case TextId(t) => Trimmed(t)
    case NumberId(n) => -9_007_199_254_740_991 <= n <= 9_007_199_254_740_991
  }

  ghost predicate ContextFits(x: ProjectionContext) {
    IdFits(x.requestId) && (x.relatedTask.Some? ==> Trimmed(x.relatedTask.value)) &&
    (x.urlBinding.Some? ==> Trimmed(x.urlBinding.value.elicitationId) && Trimmed(x.urlBinding.value.url))
  }

  /** The client declared the mode; one that declared elicitation and nothing else of it takes forms. */
  ghost predicate ClientTakes(elicitation: Option<Capabilities>, url: bool) {
    elicitation.Some? &&
    if url then elicitation.value.url
    else elicitation.value.form || elicitation == Some(Capabilities(false, false, false))
  }

  ghost predicate BindingFits(a: Adapter, x: ProjectionContext, url: bool) {
    if url then x.urlBinding.Some? && a.urlAllowed(x.urlBinding.value.url) else x.urlBinding.None?
  }

  ghost function IssuingProblem(a: Adapter, e: Envelope, x: ProjectionContext): Option<Problem> {
    var url := AsksAuthorization(e.base.payload);
    FirstProblem(e.Pending?, Projectable(a, e.base.payload), ContextFits(x), ClientTakes(x.elicitation, url),
                 BindingFits(a, x, url), Trimmed(e.base.continuationId) && Trimmed(e.base.correlationId))
  }

  lemma ContextFitsExactly(x: ProjectionContext)
    ensures ContextOk(x) <==> ContextFits(x)
  {
    if x.requestId.TextId? { OpaqueMeansTrimmed(x.requestId.id); }
    if x.relatedTask.Some? { OpaqueMeansTrimmed(x.relatedTask.value); }
    if x.urlBinding.Some? {
      OpaqueMeansTrimmed(x.urlBinding.value.elicitationId);
      OpaqueMeansTrimmed(x.urlBinding.value.url);
    }
  }

  lemma RefusedBy(a: Adapter, e: Envelope, x: ProjectionContext, contract: Contract)
    requires Sound(a) && ParseContract(a, e.base.payload) == Some(contract)
    ensures var issued := IssueMcpElicitation(a, e, x);
      FirstProblem(e.Pending?, true, ContextOk(x), ClientTakes(x.elicitation, contract.authorization),
                   BindingFits(a, x, contract.authorization),
                   IsOpaqueId(e.base.continuationId) && IsOpaqueId(e.base.correlationId)) ==
        if issued.NotIssued? then Some(issued.problem) else None
  {
    IssuedExactly(a, e, x);
  }

  /** Issuing is refused by the first check that does not pass, and by none exactly if it succeeds. */
  lemma FirstFailedCheckRefuses(a: Adapter, e: Envelope, x: ProjectionContext)
    requires Sound(a) && WellFormed(e.base.payload)
    ensures var issued := IssueMcpElicitation(a, e, x);
      IssuingProblem(a, e, x) == if issued.NotIssued? then Some(issued.problem) else None
  {
    ProjectableExactly(a, e.base.payload);
    ContextFitsExactly(x);
    OpaqueMeansTrimmed(e.base.continuationId);
    OpaqueMeansTrimmed(e.base.correlationId);
    var contract := ParseContract(a, e.base.payload);
    if contract.Some? {
      RefusedBy(a, e, x, contract.value);
      ContractMeans(a, e.base.payload);
    }
  }

  // ---------------------------------------------------------------- which requests are taken back

  /** The context that a request was issued in, as far as the request tells. */
  function ContextOf(r: Request): ProjectionContext {
    ProjectionContext(Some(Capabilities(true, true, false)), r.meta.relatedTask, r.id,
                      if r.UrlRequest? then Some(UrlBinding(r.elicitationId, r.url)) else None)
  }

  /** The adapter of a host that allows every URL. */
  function AnyUrl(a: Adapter): Adapter { a.(urlAllowed := _ => true) }

  lemma AnyUrlReadsAlike(a: Adapter, payload: Json)
    ensures ParseContract(AnyUrl(a), payload) == ParseContract(a, payload)
    ensures forall schema :: FormIsAccepted(AnyUrl(a), schema) <==> FormIsAccepted(a, schema)
  {
  }

  /** Issuing again for the pending continuation gives this request, up to key order in its form, and this receipt. */
  ghost predicate WouldIssue(a: Adapter, base: Base, r: Request, receipt: Receipt) {
    var again := IssueMcpElicitation(AnyUrl(a), Pending(base, []), ContextOf(r));
    again.Issuance? && SameRequest(r, again.request) && again.receipt == receipt &&
    (r.FormRequest? ==> FormIsAccepted(a, r.requestedSchema))
  }

  lemma SameValue(v: Json)
    ensures SameJson(v, v)
  {
    SameNormalFormSameJson(v, v);
  }

  lemma SameParams(c: Codec, r: Request, s: Request)
    requires SameRequest(r, s)
    ensures SameJson(ParamsJson(c, r), ParamsJson(c, s))
  {
    if r.UrlRequest? {
      SameValue(ParamsJson(c, r));
    } else {
      var f, g := ParamsJson(c, r).fields, ParamsJson(c, s).fields;
      SameValue(f[0].value);
      SameValue(f[1].value);
      SameValue(f[3].value);
      SameInPlace(f, g);
    }
  }

  lemma SameRequestJson(c: Codec, r: Request, s: Request)
    requires SameRequest(r, s)
    ensures SameJson(RequestJson(c, r), RequestJson(c, s))
  {
    var f, g := RequestJson(c, r).fields, RequestJson(c, s).fields;
    SameValue(f[0].value);
    SameValue(f[1].value);
    SameValue(f[2].value);
    SameParams(c, r, s);
    SameInPlace(f, g);
  }

  /** Requests that are equal up to key order in their forms have one hash. */
  lemma SameRequestSameHash(c: Codec, r: Request, s: Request)
    requires SameRequest(r, s) && FormWellFormed(r) && FormWellFormed(s)
    ensures RequestHash(c, r) == RequestHash(c, s)
  {
    RequestFields(c, r);
    RequestFields(c, s);
    var tag := Str(Ascii("mcp-elicitation-v1"));
    SameRequestJson(c, r, s);
    SameValue(tag);
    SameTagged(tag, RequestJson(c, r), RequestJson(c, s));
    HashDecides(c, Arr([tag, RequestJson(c, r)]), Arr([tag, RequestJson(c, s)]));
  }

  lemma SameTagged(tag: Json, x: Json, y: Json)
    requires SameJson(tag, tag) && SameJson(x, y) && WellFormed(tag) && WellFormed(x) && WellFormed(y)
    ensures SameJson(Arr([tag, x]), Arr([tag, y])) && WellFormed(Arr([tag, x])) && WellFormed(Arr([tag, y]))
  {
  }

  lemma HashDecides(c: Codec, x: Json, y: Json)
    requires WellFormed(x) && WellFormed(y) && SameJson(x, y)
    ensures HashJson(c, x) == HashJson(c, y)
  {
    CanonicalTextDecidesEquality(x, y);
  }

  lemma FormOfIsWellFormed(a: Adapter, payload: Json)
    requires WellFormed(payload) && ParseContract(a, payload).Some? && !ParseContract(a, payload).value.authorization
    ensures WellFormed(FormOf(ParseContract(a, payload).value))
  {
    ContractMeans(a, payload);
    var form := FormOf(ParseContract(a, payload).value);
    if Has(payload, Ascii("responseSchema"), form) {
      var k :| 0 <= k < |payload.fields| && payload.fields[k] == Member(Ascii("responseSchema"), form);
      assert WellFormed(payload.fields[k].value);
    }
  }

  /** A form request that is bound to the continuation is the one that issuing again gives, up to key order. */
  lemma BoundFormIsReissued(a: Adapter, base: Base, r: Request)
    requires Sound(a) && WellFormed(base.payload) && r.FormRequest? && FormWellFormed(r)
    requires RequestOk(a, r) && BoundTo(a, Pending(base, []), r)
    ensures var again := ToMcpElicitRequest(AnyUrl(a), Pending(base, []), ContextOf(r));
      again.Projected? && SameRequest(r, again.request) && FormWellFormed(again.request)
  {
    var contract := ParseContract(a, base.payload).value;
    AnyUrlReadsAlike(a, base.payload);
    FormOfIsWellFormed(a, base.payload);
    CanonicalTextDecidesEquality(r.requestedSchema, FormOf(contract));
    EmptyFormIsAccepted(a, base.payload);
    var again := FormRequest(r.id, r.message, FormOf(contract), r.meta);
    assert RequestOk(AnyUrl(a), again);
    assert ToMcpElicitRequest(AnyUrl(a), Pending(base, []), ContextOf(r)) == Projected(again);
  }

  lemma BoundUrlIsReissued(a: Adapter, base: Base, r: Request)
    requires Sound(a) && r.UrlRequest? && RequestOk(a, r) && BoundTo(a, Pending(base, []), r)
    ensures ToMcpElicitRequest(AnyUrl(a), Pending(base, []), ContextOf(r)) == Projected(r)
  {
    AnyUrlReadsAlike(a, base.payload);
    assert RequestOk(AnyUrl(a), r);
  }

  /** And the other way round. */
  lemma ReissuedIsBound(a: Adapter, base: Base, r: Request)
    requires Sound(a) && WellFormed(base.payload) && FormWellFormed(r)
    requires r.FormRequest? ==> FormIsAccepted(a, r.requestedSchema)
    requires var again := ToMcpElicitRequest(AnyUrl(a), Pending(base, []), ContextOf(r));
      again.Projected? && SameRequest(r, again.request)
    ensures RequestOk(a, r) && BoundTo(a, Pending(base, []), r)
  {
    AnyUrlReadsAlike(a, base.payload);
    if r.FormRequest? {
      FormOfIsWellFormed(a, base.payload);
      CanonicalTextDecidesEquality(r.requestedSchema, FormOf(ParseContract(a, base.payload).value));
    }
  }

  lemma SameRequestSameReceipt(a: Adapter, e: Envelope, r: Request, s: Request)
    requires SameRequest(r, s) && FormWellFormed(r) && FormWellFormed(s)
    ensures ReceiptFor(a, e, r) == ReceiptFor(AnyUrl(a), Pending(e.base, []), s)
  {
    SameRequestSameHash(a.codec, r, s);
  }

  lemma ReissuedFormIsWellFormed(a: Adapter, base: Base, x: ProjectionContext)
    requires WellFormed(base.payload) && ToMcpElicitRequest(a, Pending(base, []), x).Projected?
    ensures FormWellFormed(ToMcpElicitRequest(a, Pending(base, []), x).request)
  {
    if ToMcpElicitRequest(a, Pending(base, []), x).request.FormRequest? {
      FormOfIsWellFormed(a, base.payload);
    }
  }

  lemma FittingIsReissued(a: Adapter, e: Envelope, r: Request, receipt: Receipt)
    requires Sound(a) && WellFormed(e.base.payload) && FormWellFormed(r)
    requires RequestOk(a, r) && BoundTo(a, e, r) && ReceiptMatches(a, e, r, Some(receipt))
    ensures WouldIssue(a, e.base, r, receipt)
  {
    if r.FormRequest? {
      BoundFormIsReissued(a, e.base, r);
    } else {
      BoundUrlIsReissued(a, e.base, r);
    }
    SameRequestSameReceipt(a, e, r, ToMcpElicitRequest(AnyUrl(a), Pending(e.base, []), ContextOf(r)).request);
  }

  lemma ReissuedFits(a: Adapter, e: Envelope, r: Request, receipt: Receipt)
    requires Sound(a) && WellFormed(e.base.payload) && FormWellFormed(r) && WouldIssue(a, e.base, r, receipt)
    ensures RequestOk(a, r) && BoundTo(a, e, r) && ReceiptMatches(a, e, r, Some(receipt))
  {
    ReissuedIsBound(a, e.base, r);
    ReissuedFormIsWellFormed(AnyUrl(a), e.base, ContextOf(r));
    SameRequestSameReceipt(a, e, r, ToMcpElicitRequest(AnyUrl(a), Pending(e.base, []), ContextOf(r)).request);
  }

  /** A request and its receipt fit a continuation exactly if issuing again for it gives just these. */
  lemma BindingExactly(a: Adapter, e: Envelope, r: Request, receipt: Option<Receipt>)
    requires Sound(a) && WellFormed(e.base.payload) && FormWellFormed(r)
    ensures RequestOk(a, r) && BoundTo(a, e, r) && ReceiptMatches(a, e, r, receipt) <==>
      receipt.Some? && WouldIssue(a, e.base, r, receipt.value)
  {
    if receipt.Some? {
      if RequestOk(a, r) && BoundTo(a, e, r) && ReceiptMatches(a, e, r, receipt) {
        FittingIsReissued(a, e, r, receipt.value);
      }
      if WouldIssue(a, e.base, r, receipt.value) {
        ReissuedFits(a, e, r, receipt.value);
      }
    }
  }

  /**
   * Which results are taken back, and what becomes of every other: a result of a pending continuation counts
   * exactly if issuing again for that continuation would give its request and its receipt.
   */
  lemma TakesBackExactly(
    a: Adapter, e: Envelope, r: Request, receipt: Option<Receipt>, result: Option<ElicitResult>)
    requires Sound(a) && WellFormed(e.base.payload) && FormWellFormed(r)
    ensures ParseMcpElicitResult(a, e, r, receipt, result) ==
      if !e.Pending? then NoOutcome(BadTransition)
      else if receipt.None? || !WouldIssue(a, e.base, r, receipt.value) then NoOutcome(BadBinding)
      else if result.None? then NoOutcome(BadMessage)
      else Answer(a, r, result.value)
  {
    BindingExactly(a, e, r, receipt);
  }

  /** Which requests complete: exactly those for a URL that would be issued again, once resumed. */
  lemma CompletesExactly(a: Adapter, e: Envelope, r: Request, receipt: Option<Receipt>)
    requires Sound(a) && WellFormed(e.base.payload) && FormWellFormed(r)
    ensures ToMcpElicitationCompleteNotification(a, e, r, receipt) ==
      if !e.Resumed? then NotCompleted(BadTransition)
      else if !r.UrlRequest? || receipt.None? || !WouldIssue(a, e.base, r, receipt.value) then NotCompleted(BadBinding)
      else Completion(r.elicitationId, r.meta)
  {
    BindingExactly(a, e, r, receipt);
  }

  // ---------------------------------------------------------------- the request on the wire

  ghost predicate IdOnTheWire(id: RequestId, v: Json) {
    match id
    case TextId(t) => v == Str(t)
    case NumberId(n) => v == Num(Decimal(n))
  }

  ghost predicate BindingOnTheWire(c: Codec, meta: Metadata, v: Json) {
    Has(v, Ascii("continuationId"), Str(meta.continuationId)) &&
    Has(v, Ascii("correlationId"), Str(meta.correlationId)) &&
    Has(v, Ascii("expiresAt"), Str(c.iso(meta.expiresAt))) &&
    Has(v, Ascii("schemaVersion"), Num([49])) &&
    exists id :: Has(v, Ascii("requestId"), id) && IdOnTheWire(meta.requestId, id)
  }

  function ContinuationKey(): Text { Ascii("io.pausemesh/continuation") }

  function RelatedTaskKey(): Text { Ascii("io.modelcontextprotocol/related-task") }

  ghost predicate TaskOnTheWire(relatedTask: Option<Text>, v: Json) {
    match relatedTask
    case None => Lacks(v, RelatedTaskKey())
    case Some(id) =>
      exists task :: Has(v, RelatedTaskKey(), task) && Has(task, Ascii("taskId"), Str(id))
  }

  ghost predicate MetaOnTheWire(c: Codec, meta: Metadata, v: Json) {
    TaskOnTheWire(meta.relatedTask, v) &&
    exists binding :: Has(v, ContinuationKey(), binding) && BindingOnTheWire(c, meta, binding)
  }

  ghost predicate FormOnTheWire(schema: Json, v: Json) {
    Has(v, Ascii("mode"), Str(Ascii("form"))) && Has(v, Ascii("requestedSchema"), schema)
  }

  ghost predicate UrlOnTheWire(elicitationId: Text, url: Text, v: Json) {
    Has(v, Ascii("mode"), Str(Ascii("url"))) && Has(v, Ascii("elicitationId"), Str(elicitationId)) &&
    Has(v, Ascii("url"), Str(url))
  }

  ghost predicate ParamsOnTheWire(c: Codec, r: Request, v: Json) {
    Has(v, Ascii("message"), Str(r.message)) &&
    (exists meta :: Has(v, Ascii("_meta"), meta) && MetaOnTheWire(c, r.meta, meta)) &&
    if r.FormRequest? then FormOnTheWire(r.requestedSchema, v) else UrlOnTheWire(r.elicitationId, r.url, v)
  }

  /** The JSON-RPC request `elicitation/create` that carries the request, member by member. */
  ghost predicate OnTheWire(c: Codec, r: Request, v: Json) {
    WellFormed(v) && Has(v, Ascii("jsonrpc"), Str(Ascii("2.0"))) &&
    Has(v, Ascii("method"), Str(Ascii("elicitation/create"))) &&
    (exists id :: Has(v, Ascii("id"), id) && IdOnTheWire(r.id, id)) &&
    exists params :: Has(v, Ascii("params"), params) && ParamsOnTheWire(c, r, params)
  }

  lemma BindingIsWritten(c: Codec, meta: Metadata)
    ensures BindingOnTheWire(c, meta, BindingJson(c, meta))
  {
    var v := BindingJson(c, meta);
    MemberAt(v, 0);
    MemberAt(v, 1);
    MemberAt(v, 2);
    MemberAt(v, 3);
    MemberAt(v, 4);
  }

  lemma TaskIsWritten(c: Codec, meta: Metadata)
    requires meta.relatedTask.Some?
    ensures var v := MetaJson(c, meta);
      v.Obj? && |v.fields| == 2 && v.fields[1].key == RelatedTaskKey() &&
      Has(v.fields[1].value, Ascii("taskId"), Str(meta.relatedTask.value))
  {
    var v := MetaJson(c, meta);
    MemberAt(v.fields[1].value, 0);
  }

  lemma NoTaskIsWritten(c: Codec, meta: Metadata)
    requires meta.relatedTask.None?
    ensures Lacks(MetaJson(c, meta), RelatedTaskKey())
  {
    assert |ContinuationKey()| != |RelatedTaskKey()|;
  }

  lemma MetaIsWritten(c: Codec, meta: Metadata)
    ensures MetaOnTheWire(c, meta, MetaJson(c, meta))
  {
    BindingIsWritten(c, meta);
    var v := MetaJson(c, meta);
    MemberAt(v, 0);
    if meta.relatedTask.Some? {
      TaskIsWritten(c, meta);
      MemberAt(v, 1);
    } else {
      NoTaskIsWritten(c, meta);
    }
  }

  lemma ParamsAreWritten(c: Codec, r: Request)
    ensures ParamsOnTheWire(c, r, ParamsJson(c, r))
  {
    MetaIsWritten(c, r.meta);
    var v := ParamsJson(c, r);
    MemberAt(v, 0);
    MemberAt(v, 1);
    MemberAt(v, 2);
    MemberAt(v, 3);
    if r.UrlRequest? { MemberAt(v, 4); }
  }

  /** What is hashed and sent for a request is the JSON-RPC request that carries it. */
  lemma RequestIsWritten(c: Codec, r: Request)
    requires FormWellFormed(r)
    ensures OnTheWire(c, r, RequestJson(c, r))
  {
    ParamsAreWritten(c, r);
    RequestFields(c, r);
    var v := RequestJson(c, r);
    MemberAt(v, 0);
    MemberAt(v, 1);
    MemberAt(v, 2);
    MemberAt(v, 3);
  }
}
