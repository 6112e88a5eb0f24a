/**
 * The object handed to the consent-page template. The service and client descriptions
 * and the scopes are copied from the engine's response when the object is made and never
 * change (they are `const`); the login-id field, its read-only marker, the login flag and
 * the user's name are set afterwards, one setter per field.
 */
module PageModel {
  import opened Wrappers
  import opened AuthleteDto

  class AuthorizationPageModel {
    const serviceName: Option<string>
    const clientName: Option<string>
    const description: Option<string>
    const logoUri: Option<string>
    const clientUri: Option<string>
    const policyUri: Option<string>
    const tosUri: Option<string>
    const scopes: Option<seq<Scope>>

    var loginId: string
    /** `'readonly'` when the login-id field may not be edited, `''` otherwise. */
    var loginIdReadOnly: string
    /** `None` until the flag is first assigned: reading the attribute before then raises. */
    var loginRequired: Option<bool>
    var userName: Option<string>

    /** The read-only part of the page: what the engine said about the service, the client and the scopes. */
    predicate DescribesResponse(response: AuthorizationResponse) {
      && serviceName == response.service.serviceName
      && clientName == response.client.clientName
      && description == response.client.description
      && logoUri == response.client.logoUri
      && clientUri == response.client.clientUri
      && policyUri == response.client.policyUri
      && tosUri == response.client.tosUri
      && scopes == response.scopes
    }

    constructor (response: AuthorizationResponse)
      ensures DescribesResponse(response)
      ensures loginId == "" && loginIdReadOnly == "" && userName == None
      ensures loginRequired == None
    {
      serviceName := response.service.serviceName;
      clientName := response.client.clientName;
      description := response.client.description;
      logoUri := response.client.logoUri;
      clientUri := response.client.clientUri;
      policyUri := response.client.policyUri;
      tosUri := response.client.tosUri;
      scopes := response.scopes;
      loginId := "";
      loginIdReadOnly := "";
      userName := None;
      loginRequired := None;  // the attribute is left unassigned
    }

    method SetLoginId(value: string)
      modifies this`loginId
      ensures loginId == value
    {
      loginId := value;
    }

    method SetLoginIdReadOnly(value: string)
      modifies this`loginIdReadOnly
      ensures loginIdReadOnly == value
    {
      loginIdReadOnly := value;
    }

    method SetLoginRequired(value: bool)
      modifies this`loginRequired
      ensures loginRequired == Some(value)
    {
      loginRequired := Some(value);
    }

    method SetUserName(value: Option<string>)
      modifies this`userName
      ensures userName == value
    {
      userName := value;
    }
  }
}
