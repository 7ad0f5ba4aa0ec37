/**
 * MCP elicitation: projecting a pending continuation to a request, the host-side receipt of that request,
 * and what a result or a completion must be bound to.
 */
module McpElicitation {
  import opened Text16
  import opened JsonText
  import opened Domain
  import opened EventLog
  import opened Protocol
  import opened McpForms

  datatype RequestId = TextId(id: Text) | NumberId(number: int)

  datatype Capabilities = Capabilities(form: bool, url: bool, others: bool)

  datatype UrlBinding = UrlBinding(elicitationId: Text, url: Text)

  datatype ProjectionContext =
    ProjectionContext(elicitation: Option<Capabilities>, relatedTask: Option<Text>, requestId: RequestId,
                      urlBinding: Option<UrlBinding>)

  datatype Metadata =
    Metadata(continuationId: Id, correlationId: Text, expiresAt: Time, requestId: RequestId, relatedTask: Option<Text>)

  datatype Request =
    | FormRequest(id: RequestId, message: Text, requestedSchema: Json, meta: Metadata)
    | UrlRequest(id: RequestId, message: Text, elicitationId: Text, url: Text, meta: Metadata)

  datatype Mode = FormMode | UrlMode

  datatype Receipt =
    Receipt(continuationId: Id, correlationId: Text, mode: Mode, requestId: RequestId, requestHash: Text)

  datatype Problem = BadTransition | BadMessage | BadBinding | UnsupportedCapability

  datatype Projection = Projected(request: Request) | NotProjected(problem: Problem)

  datatype Issuance = Issuance(request: Request, receipt: Receipt) | NotIssued(problem: Problem)

  datatype ResultAction = Accept | Decline | Cancel

  datatype ElicitResult = ElicitResult(action: ResultAction, content: Option<map<Text, FormValue>>)

  datatype Outcome =
    | FormAccepted(content: map<Text, FormValue>)
    | FormDeclined(action: ResultAction)
    | UrlConsent(action: ResultAction, consentId: Text)
    | NoOutcome(problem: Problem)

  datatype Completion = Completion(completedId: Text, meta: Metadata) | NotCompleted(problem: Problem)

  /**
   * What the adapter takes from elsewhere: hashes and texts, how the protocol schema reads a requested
   * form schema, the format checks, and the host's URL policy.
   */
  datatype Adapter =
    Adapter(codec: Codec, readForm: Json -> Option<FormSchema>, formats: Formats, urlAllowed: Text -> bool)

  /** Digests look like digests, printed instants like instants, and the empty form schema is accepted. */
  ghost predicate Sound(a: Adapter) {
    DigestsMatchPattern(a.codec) && (forall t :: IsOpaqueId(a.codec.iso(t))) && FormIsAccepted(a, EmptyForm())
  }

  // ---------------------------------------------------------------- payload and capabilities

  function EmptyForm(): Json {
    Obj([Member(Ascii("type"), Str(Ascii("object"))), Member(Ascii("properties"), Obj([]))])
  }

  datatype Contract = Contract(authorization: bool, message: Text, responseSchema: Option<Json>)

  predicate FormIsAccepted(a: Adapter, schema: Json) {
    a.readForm(schema).Some? && SchemaAccepted(a.formats, a.readForm(schema).value)
  }

  function ParseContract(a: Adapter, payload: Json): Option<Contract> {
    if !payload.Obj? then None
    else
      var kind := FieldOf(payload.fields, Ascii("kind"));
      var message := FieldOf(payload.fields, Ascii("message"));
      var schema := FieldOf(payload.fields, Ascii("responseSchema"));
      if message.None? || !message.value.Str? || message.value.s == [] then None
      else if kind == Some(Str(Ascii("authorization"))) then
        if schema.Some? then None else Some(Contract(true, message.value.s, None))
      else if kind.Some? && kind.value != Str(Ascii("input")) then None
      else if schema.Some? && !FormIsAccepted(a, schema.value) then None
      else Some(Contract(false, message.value.s, schema))
  }

  function FormOf(contract: Contract): Json {
    if contract.responseSchema.Some? then contract.responseSchema.value else EmptyForm()
  }

  predicate Supports(elicitation: Option<Capabilities>, mode: Mode) {
    elicitation.Some? &&
    match mode
    case FormMode => elicitation.value.form || (!elicitation.value.url && !elicitation.value.others)
    case UrlMode => elicitation.value.url
  }

  // ---------------------------------------------------------------- protocol schemas

  predicate IdOk(id: RequestId) {
    match id
    case TextId(t) => IsOpaqueId(t)
    case NumberId(n) => -MAX_SAFE <= n <= MAX_SAFE
  }

  predicate ContextOk(x: ProjectionContext) {
    IdOk(x.requestId) && (x.relatedTask.Some? ==> IsOpaqueId(x.relatedTask.value)) &&
    (x.urlBinding.Some? ==> IsOpaqueId(x.urlBinding.value.elicitationId) && IsOpaqueId(x.urlBinding.value.url))
  }

  predicate MetaOk(a: Adapter, meta: Metadata) {
    IsOpaqueId(meta.continuationId) && IsOpaqueId(meta.correlationId) && IsOpaqueId(a.codec.iso(meta.expiresAt)) &&
    IdOk(meta.requestId) && (meta.relatedTask.Some? ==> IsOpaqueId(meta.relatedTask.value))
  }

  predicate RequestOk(a: Adapter, r: Request) {
    IdOk(r.id) && r.message != [] && MetaOk(a, r.meta) &&
    match r
    case FormRequest(_, _, schema, _) => FormIsAccepted(a, schema)
    case UrlRequest(_, _, elicitationId, url, _) => IsOpaqueId(elicitationId) && IsOpaqueId(url)
  }

  predicate ReceiptOk(a: Adapter, r: Receipt) {
    IsOpaqueId(r.continuationId) && IsOpaqueId(r.correlationId) && IdOk(r.requestId) && a.codec.isDigest(r.requestHash)
  }

  // ---------------------------------------------------------------- the request as JSON

  function IdJson(id: RequestId): Json {
    match id
    case TextId(t) => Str(t)
    case NumberId(n) => Num(Decimal(n))
  }

  function BindingJson(c: Codec, meta: Metadata): Json {
    Obj([Member(Ascii("continuationId"), Str(meta.continuationId)),
         Member(Ascii("correlationId"), Str(meta.correlationId)),
         Member(Ascii("expiresAt"), Str(c.iso(meta.expiresAt))),
         Member(Ascii("requestId"), IdJson(meta.requestId)),
         Member(Ascii("schemaVersion"), Num([49]))])
  }

  function MetaJson(c: Codec, meta: Metadata): Json {
    Obj([Member(Ascii("io.pausemesh/continuation"), BindingJson(c, meta))] +
        if meta.relatedTask.None? then []
        else [Member(Ascii("io.modelcontextprotocol/related-task"),
                     Obj([Member(Ascii("taskId"), Str(meta.relatedTask.value))]))])
  }

  function ParamsJson(c: Codec, r: Request): Json {
    match r
    case FormRequest(_, message, schema, meta) =>
      Obj([Member(Ascii("mode"), Str(Ascii("form"))), Member(Ascii("message"), Str(message)),
           Member(Ascii("requestedSchema"), schema), Member(Ascii("_meta"), MetaJson(c, meta))])
    case UrlRequest(_, message, elicitationId, url, meta) =>
      Obj([Member(Ascii("mode"), Str(Ascii("url"))), Member(Ascii("message"), Str(message)),
           Member(Ascii("elicitationId"), Str(elicitationId)), Member(Ascii("url"), Str(url)),
           Member(Ascii("_meta"), MetaJson(c, meta))])
  }

  function RequestJson(c: Codec, r: Request): Json {
    Obj([Member(Ascii("jsonrpc"), Str(Ascii("2.0"))), Member(Ascii("id"), IdJson(r.id)),
         Member(Ascii("method"), Str(Ascii("elicitation/create"))), Member(Ascii("params"), ParamsJson(c, r))])
  }

  function RequestHash(c: Codec, r: Request): Text {
    HashJson(c, Arr([Str(Ascii("mcp-elicitation-v1")), RequestJson(c, r)]))
  }

  // ---------------------------------------------------------------- issuing

  function ModeOf(r: Request): Mode { if r.FormRequest? then FormMode else UrlMode }

  function MetadataOf(e: Envelope, x: ProjectionContext): Metadata {
    Metadata(e.base.continuationId, e.base.correlationId, e.base.expiresAt, x.requestId, x.relatedTask)
  }

  function Checked(a: Adapter, r: Request): Projection {
    if RequestOk(a, r) then Projected(r) else NotProjected(BadMessage)
  }

  function ToMcpElicitRequest(a: Adapter, e: Envelope, x: ProjectionContext): Projection {
    if !e.Pending? then NotProjected(BadTransition)
    else
      var contract := ParseContract(a, e.base.payload);
      if contract.None? then NotProjected(BadMessage)
      else if !ContextOk(x) then NotProjected(BadBinding)
      else if contract.value.authorization then
        if !Supports(x.elicitation, UrlMode) then NotProjected(UnsupportedCapability)
        else if x.urlBinding.None? || !a.urlAllowed(x.urlBinding.value.url) then NotProjected(BadBinding)
        else Checked(a, UrlRequest(x.requestId, contract.value.message, x.urlBinding.value.elicitationId,
                                   x.urlBinding.value.url, MetadataOf(e, x)))
      else if !Supports(x.elicitation, FormMode) then NotProjected(UnsupportedCapability)
      else if x.urlBinding.Some? then NotProjected(BadBinding)
      else Checked(a, FormRequest(x.requestId, contract.value.message, FormOf(contract.value), MetadataOf(e, x)))
  }

  function ReceiptFor(a: Adapter, e: Envelope, r: Request): Receipt {
    Receipt(e.base.continuationId, e.base.correlationId, ModeOf(r), r.id, RequestHash(a.codec, r))
  }

  function IssueMcpElicitation(a: Adapter, e: Envelope, x: ProjectionContext): Issuance {
    match ToMcpElicitRequest(a, e, x)
    case NotProjected(problem) => NotIssued(problem)
    case Projected(request) =>
      var receipt := ReceiptFor(a, e, request);
      if ReceiptOk(a, receipt) then Issuance(request, receipt) else NotIssued(BadMessage)
  }

  // ---------------------------------------------------------------- taking results back

  predicate BoundTo(a: Adapter, e: Envelope, r: Request) {
    var contract := ParseContract(a, e.base.payload);
    contract.Some? && r.meta.continuationId == e.base.continuationId && r.meta.correlationId == e.base.correlationId &&
    r.meta.expiresAt == e.base.expiresAt && r.meta.requestId == r.id &&
    (r.UrlRequest? <==> contract.value.authorization) && r.message == contract.value.message &&
    (r.FormRequest? ==> CanonicalJson(r.requestedSchema) == CanonicalJson(FormOf(contract.value)))
  }

  predicate ReceiptMatches(a: Adapter, e: Envelope, r: Request, raw: Option<Receipt>) {
    raw.Some? && ReceiptOk(a, raw.value) && raw.value == ReceiptFor(a, e, r)
  }

  function FormContent(a: Adapter, schema: Json, content: map<Text, FormValue>): Outcome {
    var form := a.readForm(schema);
    if form.Some? && ContentIsValid(a.formats, content, form.value) then FormAccepted(content)
    else NoOutcome(BadMessage)
  }

  function ParseMcpElicitResult(
    a: Adapter, e: Envelope, r: Request, receipt: Option<Receipt>, result: Option<ElicitResult>): Outcome
  {
    if !e.Pending? then NoOutcome(BadTransition)
    else if !RequestOk(a, r) || !BoundTo(a, e, r) || !ReceiptMatches(a, e, r, receipt) then NoOutcome(BadBinding)
    else if result.None? then NoOutcome(BadMessage)
    else if r.UrlRequest? then
      if result.value.content.Some? then NoOutcome(BadMessage)
      else UrlConsent(result.value.action, r.elicitationId)
    else if !result.value.action.Accept? then
      if result.value.content.Some? then NoOutcome(BadMessage) else FormDeclined(result.value.action)
    else if result.value.content.None? then NoOutcome(BadMessage)
    else FormContent(a, r.requestedSchema, result.value.content.value)
  }

  function ToMcpElicitationCompleteNotification(a: Adapter, e: Envelope, r: Request, receipt: Option<Receipt>)
    : Completion
  {
    if !e.Resumed? then NotCompleted(BadTransition)
    else if !r.UrlRequest? || !RequestOk(a, r) || !BoundTo(a, e, r) || !ReceiptMatches(a, e, r, receipt) then
      NotCompleted(BadBinding)
    else Completion(r.elicitationId, r.meta)
  }
}
