/** The MCP round trip: what an issued request and its receipt guarantee on the way back. */
module McpTheorems {
  import opened Text16
  import opened JsonText
  import opened JsonEquality
  import opened Domain
  import opened Protocol
  import opened McpForms
  import opened McpElicitation

  // ---------------------------------------------------------------- issue, then parse

  /** The continuations and contexts that can be issued. */
  ghost predicate Issuable(a: Adapter, e: Envelope, x: ProjectionContext) {
    var contract := ParseContract(a, e.base.payload);
    e.Pending? && contract.Some? && ContextOk(x) && IsOpaqueId(e.base.continuationId) &&
    IsOpaqueId(e.base.correlationId) &&
    if contract.value.authorization then
      Supports(x.elicitation, UrlMode) && x.urlBinding.Some? && a.urlAllowed(x.urlBinding.value.url)
    else Supports(x.elicitation, FormMode) && x.urlBinding.None?
  }

  lemma EmptyFormIsAccepted(a: Adapter, payload: Json)
    requires Sound(a)
    requires ParseContract(a, payload).Some? && !ParseContract(a, payload).value.authorization
    ensures FormIsAccepted(a, FormOf(ParseContract(a, payload).value))
  {
  }

  /** Issuing succeeds exactly for these, and what it issues passes every check made when it comes back. */
  lemma IssuedExactly(a: Adapter, e: Envelope, x: ProjectionContext)
    requires Sound(a)
    ensures IssueMcpElicitation(a, e, x).Issuance? <==> Issuable(a, e, x)
    ensures IssueMcpElicitation(a, e, x).Issuance? ==>
      var request, receipt := IssueMcpElicitation(a, e, x).request, IssueMcpElicitation(a, e, x).receipt;
      RequestOk(a, request) && BoundTo(a, e, request) && ReceiptMatches(a, e, request, Some(receipt))
  {
    if ParseContract(a, e.base.payload).Some? && !ParseContract(a, e.base.payload).value.authorization {
      EmptyFormIsAccepted(a, e.base.payload);
    }
    var projection := ToMcpElicitRequest(a, e, x);
    if projection.Projected? {
      HashIsDigest(a, projection.request);
    }
  }

  lemma HashIsDigest(a: Adapter, r: Request)
    requires Sound(a)
    ensures a.codec.isDigest(RequestHash(a.codec, r))
  {
  }

  /** What the issuer of a request will hear, for every result the client may send. */
  function Answer(a: Adapter, r: Request, result: ElicitResult): Outcome {
    match r
    case UrlRequest(_, _, elicitationId, _, _) =>
      if result.content.Some? then NoOutcome(BadMessage) else UrlConsent(result.action, elicitationId)
    case FormRequest(_, _, schema, _) =>
      if !result.action.Accept? then
        if result.content.Some? then NoOutcome(BadMessage) else FormDeclined(result.action)
      else if result.content.Some? && a.readForm(schema).Some? &&
              ContentIsValid(a.formats, result.content.value, a.readForm(schema).value) then
        FormAccepted(result.content.value)
      else NoOutcome(BadMessage)
  }

  /**
   * Every successful issuance parses with its own receipt while the continuation is pending: a decline or
   * a cancel comes through as such, consent to a URL carries its elicitation id, and an accepted form is
   * taken exactly when the schema that was sent accepts it.
   */
  lemma IssuedRequestsParse(a: Adapter, e: Envelope, x: ProjectionContext, result: ElicitResult)
    requires Sound(a)
    requires IssueMcpElicitation(a, e, x).Issuance?
    ensures var issued := IssueMcpElicitation(a, e, x);
      ParseMcpElicitResult(a, e, issued.request, Some(issued.receipt), Some(result)) ==
        Answer(a, issued.request, result)
    ensures var issued := IssueMcpElicitation(a, e, x);
      !result.action.Accept? && result.content.None? ==>
        ParseMcpElicitResult(a, e, issued.request, Some(issued.receipt), Some(result)) ==
          if issued.request.UrlRequest? then UrlConsent(result.action, issued.request.elicitationId)
          else FormDeclined(result.action)
  {
    IssuedExactly(a, e, x);
  }

  /** A form returned with all its defaults is accepted whenever every required property has a default. */
  lemma DefaultsComeBackAccepted(a: Adapter, e: Envelope, x: ProjectionContext)
    requires Sound(a)
    requires IssueMcpElicitation(a, e, x).Issuance? && IssueMcpElicitation(a, e, x).request.FormRequest?
    ensures var issued := IssueMcpElicitation(a, e, x);
      a.readForm(issued.request.requestedSchema).Some? &&
      var form := a.readForm(issued.request.requestedSchema).value;
      SchemaAccepted(a.formats, form) &&
      ((form.required.Some? ==>
        forall i | 0 <= i < |form.required.value| :: DefaultOf(form.properties[form.required.value[i]]).Some?) ==>
        ParseMcpElicitResult(a, e, issued.request, Some(issued.receipt),
                             Some(ElicitResult(Accept, Some(Defaults(form))))) == FormAccepted(Defaults(form)))
  {
    IssuedExactly(a, e, x);
    var issued := IssueMcpElicitation(a, e, x);
    var form := a.readForm(issued.request.requestedSchema).value;
    DefaultsAreAccepted(a.formats, form);
    IssuedRequestsParse(a, e, x, ElicitResult(Accept, Some(Defaults(form))));
  }

  // ---------------------------------------------------------------- completion after a resume

  /**
   * In URL mode the receipt outlives the wait: after any transition that resumes the continuation the
   * request completes, with the elicitation id that was issued; after any other transition it does not.
   */
  lemma CompletesAfterResume(a: Adapter, e: Envelope, x: ProjectionContext, event: Event)
    requires Sound(a)
    requires IssueMcpElicitation(a, e, x).Issuance? && IssueMcpElicitation(a, e, x).request.UrlRequest?
    requires ReduceContinuation(Some(e), event).Success?
    ensures var issued := IssueMcpElicitation(a, e, x);
      var after := ReduceContinuation(Some(e), event).value;
      ToMcpElicitationCompleteNotification(a, after, issued.request, Some(issued.receipt)) ==
        if after.Resumed? then Completion(x.urlBinding.value.elicitationId, MetadataOf(e, x))
        else NotCompleted(BadTransition)
    ensures var issued := IssueMcpElicitation(a, e, x);
      var after := ReduceContinuation(Some(e), event).value;
      forall result ::
        ParseMcpElicitResult(a, after, issued.request, Some(issued.receipt), result) ==
          NoOutcome(BadTransition)
  {
    IssuedExactly(a, e, x);
    TransitionKeepsBase(e, event);
    var issued := IssueMcpElicitation(a, e, x);
    SameBaseSameBinding(a, e, ReduceContinuation(Some(e), event).value, issued.request, issued.receipt);
  }

  lemma SameBaseSameBinding(a: Adapter, before: Envelope, after: Envelope, r: Request, receipt: Receipt)
    requires after.base == before.base.(version := after.base.version)
    requires BoundTo(a, before, r) && ReceiptMatches(a, before, r, Some(receipt))
    ensures BoundTo(a, after, r) && ReceiptMatches(a, after, r, Some(receipt))
  {
  }

  // ---------------------------------------------------------------- the receipt pins the request

  /** Equal in every field; a form schema may have its members in another order. */
  ghost predicate SameRequest(r: Request, s: Request) {
    match r
    case FormRequest(id, message, schema, meta) =>
      s.FormRequest? && s.id == id && s.message == message && s.meta == meta && SameJson(schema, s.requestedSchema)
    case UrlRequest(_, _, _, _, _) => r == s
  }

  ghost predicate FormWellFormed(r: Request) { r.FormRequest? ==> WellFormed(r.requestedSchema) }

  lemma IdPins(a: RequestId, b: RequestId)
    requires SameJson(IdJson(a), IdJson(b))
    ensures a == b
  {
    if a.NumberId? && b.NumberId? { DecimalIsInjective(a.number, b.number); }
  }

  lemma BindingFields(c: Codec, m: Metadata)
    ensures BindingJson(c, m).Obj? && |BindingJson(c, m).fields| == 5 && DistinctKeys(BindingJson(c, m).fields)
    ensures WellFormed(BindingJson(c, m))
  {
    assert WellFormed(IdJson(m.requestId));
    assert Ascii("expiresAt")[0] == 101 && Ascii("requestId")[0] == 114;
    assert Ascii("correlationId")[0] == 99 && Ascii("schemaVersion")[0] == 115;
  }

  lemma BindingPins(c: Codec, m: Metadata, n: Metadata)
    requires Injective(c) && SameJson(BindingJson(c, m), BindingJson(c, n))
    ensures m.continuationId == n.continuationId && m.correlationId == n.correlationId
    ensures m.expiresAt == n.expiresAt && m.requestId == n.requestId
  {
    BindingFields(c, n);
    var f, g := BindingJson(c, m).fields, BindingJson(c, n).fields;
    SameMember(f, g, 0);
    SameMember(f, g, 1);
    SameMember(f, g, 2);
    SameMember(f, g, 3);
    IdPins(m.requestId, n.requestId);
  }

  lemma MetaFields(c: Codec, m: Metadata)
    ensures var j := MetaJson(c, m);
      j.Obj? && DistinctKeys(j.fields) && WellFormed(j) && |j.fields| == (if m.relatedTask.None? then 1 else 2) &&
      j.fields[0] == Member(Ascii("io.pausemesh/continuation"), BindingJson(c, m))
    ensures m.relatedTask.Some? ==>
      MetaJson(c, m).fields[1] == Member(Ascii("io.modelcontextprotocol/related-task"), TaskJson(m.relatedTask.value))
  {
    BindingFields(c, m);
    if m.relatedTask.Some? { TaskFields(m.relatedTask.value); }
  }

  function TaskJson(task: Text): Json { Obj([Member(Ascii("taskId"), Str(task))]) }

  lemma TaskFields(task: Text)
    ensures WellFormed(TaskJson(task)) && DistinctKeys(TaskJson(task).fields)
  {
  }

  lemma TaskPins(t: Text, u: Text)
    requires SameJson(TaskJson(t), TaskJson(u))
    ensures t == u
  {
    TaskFields(u);
    SameMember(TaskJson(t).fields, TaskJson(u).fields, 0);
  }

  lemma MetaPins(c: Codec, m: Metadata, n: Metadata)
    requires Injective(c) && SameJson(MetaJson(c, m), MetaJson(c, n))
    ensures m == n
  {
    MetaFields(c, m);
    MetaFields(c, n);
    var f, g := MetaJson(c, m).fields, MetaJson(c, n).fields;
    assert |f| == |g|;
    SameMember(f, g, 0);
    BindingPins(c, m, n);
    if m.relatedTask.Some? {
      SameMember(f, g, 1);
      TaskPins(m.relatedTask.value, n.relatedTask.value);
    }
  }

  lemma ParamsFields(c: Codec, r: Request)
    requires FormWellFormed(r)
    ensures ParamsJson(c, r).Obj? && DistinctKeys(ParamsJson(c, r).fields)
    ensures |ParamsJson(c, r).fields| == (if r.FormRequest? then 4 else 5)
    ensures WellFormed(ParamsJson(c, r))
  {
    MetaFields(c, r.meta);
  }

  lemma FormParamsPin(c: Codec, r: Request, s: Request)
    requires Injective(c) && r.FormRequest? && s.FormRequest? && FormWellFormed(s)
    requires SameJson(ParamsJson(c, r), ParamsJson(c, s))
    ensures r.message == s.message && r.meta == s.meta && SameJson(r.requestedSchema, s.requestedSchema)
  {
    ParamsFields(c, s);
    var f, g := ParamsJson(c, r).fields, ParamsJson(c, s).fields;
    SameMember(f, g, 1);
    SameMember(f, g, 2);
    SameMember(f, g, 3);
    MetaPins(c, r.meta, s.meta);
  }

  lemma UrlParamsPin(c: Codec, r: Request, s: Request)
    requires Injective(c) && r.UrlRequest? && s.UrlRequest? && SameJson(ParamsJson(c, r), ParamsJson(c, s))
    ensures r.message == s.message && r.meta == s.meta && r.elicitationId == s.elicitationId && r.url == s.url
  {
    ParamsFields(c, s);
    var f, g := ParamsJson(c, r).fields, ParamsJson(c, s).fields;
    SameMember(f, g, 1);
    SameMember(f, g, 2);
    SameMember(f, g, 3);
    SameMember(f, g, 4);
    MetaPins(c, r.meta, s.meta);
  }

  lemma RequestFields(c: Codec, r: Request)
    requires FormWellFormed(r)
    ensures RequestJson(c, r).Obj? && DistinctKeys(RequestJson(c, r).fields) && WellFormed(RequestJson(c, r))
  {
    ParamsFields(c, r);
    assert WellFormed(IdJson(r.id));
    assert Ascii("method")[0] == 109 && Ascii("params")[0] == 112;
  }

  lemma RequestPins(c: Codec, r: Request, s: Request)
    requires Injective(c) && FormWellFormed(r) && FormWellFormed(s)
    requires SameJson(RequestJson(c, r), RequestJson(c, s))
    ensures SameRequest(r, s)
  {
    RequestFields(c, s);
    ParamsFields(c, r);
    ParamsFields(c, s);
    var f, g := RequestJson(c, r).fields, RequestJson(c, s).fields;
    SameMember(f, g, 1);
    SameMember(f, g, 3);
    IdPins(r.id, s.id);
    assert |ParamsJson(c, r).fields| == |ParamsJson(c, s).fields|;
    if r.FormRequest? { FormParamsPin(c, r, s); } else { UrlParamsPin(c, r, s); }
  }

  /**
   * Without collisions, the only request that a receipt lets through is the one it was issued for, up to
   * the order of members in its form schema.
   */
  lemma ReceiptPinsTheRequest(
    a: Adapter, e: Envelope, x: ProjectionContext, later: Envelope, r: Request, result: Option<ElicitResult>)
    requires Injective(a.codec) && IssueMcpElicitation(a, e, x).Issuance?
    requires FormWellFormed(r) && FormWellFormed(IssueMcpElicitation(a, e, x).request)
    requires var receipt := Some(IssueMcpElicitation(a, e, x).receipt);
      !ParseMcpElicitResult(a, later, r, receipt, result).NoOutcome? ||
      ToMcpElicitationCompleteNotification(a, later, r, receipt).Completion?
    ensures SameRequest(r, IssueMcpElicitation(a, e, x).request)
  {
    var issued := IssueMcpElicitation(a, e, x);
    assert ReceiptMatches(a, later, r, Some(issued.receipt));
    HashPins(a.codec, r, issued.request);
  }

  /** Equal request hashes mean equal requests, up to the order of members in the form schema. */
  lemma HashPins(c: Codec, r: Request, s: Request)
    requires Injective(c) && FormWellFormed(r) && FormWellFormed(s) && RequestHash(c, r) == RequestHash(c, s)
    ensures SameRequest(r, s)
  {
    RequestFields(c, r);
    RequestFields(c, s);
    SameTaggedHash(c, Str(Ascii("mcp-elicitation-v1")), RequestJson(c, r), RequestJson(c, s));
    RequestPins(c, r, s);
  }
}
