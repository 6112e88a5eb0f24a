/**
 * The response of the engine's authorization API as the endpoints read it: the next
 * action, the ticket, the service and client descriptions shown on the consent page, and
 * the request's `prompt`, `max_age`, `login_hint`, required subject and requested claims
 * (section 3.1.2.1 of OpenID Connect Core 1.0).
 */
module AuthleteDto {
  import opened Wrappers

  /** Names of standard claims (section 5.1 of OpenID Connect Core 1.0). */
  const NAME := "name"
  const GIVEN_NAME := "given_name"
  const FAMILY_NAME := "family_name"
  const EMAIL := "email"

  /** Values of the `prompt` request parameter. */
  datatype Prompt = PromptNone | Login | Consent | SelectAccount

  /** What the engine tells the authorization endpoint to do next. */
  datatype AuthorizationAction =
    | InternalServerError
    | BadRequest
    | Location
    | Form
    | NoInteraction
    | Interaction

  /** Why an authorization request is reported as failed. */
  datatype AuthorizationFailReason = NotAuthenticated

  datatype Scope = Scope(name: string, description: Option<string>)

  datatype Service = Service(serviceName: Option<string>)

  datatype Client = Client(
    clientName: Option<string>,
    description: Option<string>,
    logoUri: Option<string>,
    clientUri: Option<string>,
    policyUri: Option<string>,
    tosUri: Option<string>)

  /** `maxAge` is 0 when neither `max_age` nor the client's `default_max_age` is set. */
  datatype AuthorizationResponse = AuthorizationResponse(
    action: AuthorizationAction,
    ticket: string,
    service: Service,
    client: Client,
    scopes: Option<seq<Scope>>,
    prompts: Option<seq<Prompt>>,
    subject: Option<string>,
    maxAge: int,
    loginHint: Option<string>,
    claims: Option<seq<string>>,
    claimsLocales: Option<seq<string>>)
}
