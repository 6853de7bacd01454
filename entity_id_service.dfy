/**
 * EntityIdService: which of the configured service entity ids a request concerns.
 * A provided id must be one of the configured ids; without one, the sole configured id
 * is used, and a configuration with several ids is an error.
 */
module EntityIdService {
  import opened Failures

  const SEVERAL_IN_CONFIG_MESSAGE: string := "No entityId was provided, and there are several in config"

  function NotListedMessage(provided: string): string
  {
    "Provided entityId: " + provided + " is not listed in config"
  }

  /** The body of a request-generation call: level of assurance and optional entity id. */
  datatype RequestGenerationBody<L> = RequestGenerationBody(levelOfAssurance: Option<L>, entityId: Option<string>)

  /** The body of a translate-response call. */
  datatype TranslateSamlResponseBody<L> = TranslateSamlResponseBody(
    samlResponse: Option<string>, requestId: Option<string>, levelOfAssurance: Option<L>, entityId: Option<string>)

  /** The rule, as a function of the configured list and the optional provided id. */
  function ResolveEntityId(configuredEntityIds: seq<string>, provided: Option<string>): (r: Result<string>)
    ensures r.Ok? ==> r.value in configuredEntityIds
    ensures r.Ok? && provided.Some? ==> r.value == provided.value
    ensures r.Err? ==> r.error.InvalidEntityId?
  {
    match provided
    case Some(id) =>
      if id in configuredEntityIds then Ok(id) else Err(InvalidEntityId(NotListedMessage(id)))
    case None =>
      if |configuredEntityIds| == 1 then Ok(configuredEntityIds[0])
      else Err(InvalidEntityId(SEVERAL_IN_CONFIG_MESSAGE))
  }

  /** The service, built from the configured list. */
  datatype EntityIdService = EntityIdService(configuredEntityIds: seq<string>)
  {
    /** getEntityId(RequestGenerationBody). */
    function GetEntityIdForRequest<L>(body: RequestGenerationBody<L>): (r: Result<string>)
      ensures r.Ok? ==> r.value in configuredEntityIds
      ensures r.Ok? && body.entityId.Some? ==> r.value == body.entityId.value
      ensures r.Err? ==> r.error.InvalidEntityId?
    {
      ResolveEntityId(configuredEntityIds, body.entityId)
    }

    /** getEntityId(TranslateSamlResponseBody). */
    function GetEntityIdForResponse<L>(body: TranslateSamlResponseBody<L>): (r: Result<string>)
      ensures r.Ok? ==> r.value in configuredEntityIds
      ensures r.Ok? && body.entityId.Some? ==> r.value == body.entityId.value
      ensures r.Err? ==> r.error.InvalidEntityId?
    {
      ResolveEntityId(configuredEntityIds, body.entityId)
    }
  }

  /** A single-tenant service uses its one id when none is provided. */
  lemma SingleTenantDefault(id: string)
    ensures ResolveEntityId([id], None) == Ok(id)
  {
  }

  /** A provided id listed in the configuration is returned unchanged. */
  lemma ListedIdReturned(configured: seq<string>, id: string)
    requires id in configured
    ensures ResolveEntityId(configured, Some(id)) == Ok(id)
  {
  }

  /** With no id provided and more than one configured, resolution fails. */
  lemma MultiTenantNeedsId(configured: seq<string>)
    requires |configured| >= 2
    ensures ResolveEntityId(configured, None) == Err(InvalidEntityId(SEVERAL_IN_CONFIG_MESSAGE))
  {
  }

  /** An unlisted provided id fails and names the id. */
  lemma UnlistedIdRejected(configured: seq<string>, id: string)
    requires id !in configured
    ensures ResolveEntityId(configured, Some(id)) == Err(InvalidEntityId(NotListedMessage(id)))
  {
  }

  /** Both request bodies follow the same rule for the same entity id. */
  lemma SameRuleForBothBodies<L>(service: EntityIdService, request: RequestGenerationBody<L>, response: TranslateSamlResponseBody<L>)
    requires request.entityId == response.entityId
    ensures service.GetEntityIdForRequest(request) == service.GetEntityIdForResponse(response)
  {
  }

  /** The two example tenants of the service's unit tests. */
  lemma ConfiguredExamples()
    ensures ResolveEntityId(["http://default.entity.id"], None) == Ok("http://default.entity.id")
    ensures ResolveEntityId(["http://default.entity.id", "http://other.provided.entity.id"], Some("http://other.provided.entity.id"))
      == Ok("http://other.provided.entity.id")
    ensures ResolveEntityId(["http://default.entity.id", "http://other.provided.entity.id"], None)
      == Err(InvalidEntityId("No entityId was provided, and there are several in config"))
    ensures ResolveEntityId(["http://default.entity.id", "http://other.provided.entity.id"], Some("http://some.other.entity.id"))
      == Err(InvalidEntityId(NotListedMessage("http://some.other.entity.id")))
  {
    var unlisted := "http://some.other.entity.id";
    assert unlisted[7] != "http://default.entity.id"[7] && unlisted[7] != "http://other.provided.entity.id"[7];
  }
}
