/**
 * The token introspection endpoint. Section 2.1 of RFC 7662 requires the caller to be
 * authorized; this demonstration accepts any caller that presents Basic credentials with a
 * user id other than `nobody`, whatever the password, and answers 401 otherwise.
 */
module IntrospectionEndpoint {
  import opened Wrappers

  /** The `Authorization` header as parsed for Basic authentication: no user id when absent or not Basic. */
  datatype BasicCredentials = BasicCredentials(userId: Option<string>, password: Option<string>)

  datatype Response =
    | Unauthorized(challenge: string)
      /** Handed to the engine's introspection handler. */
    | IntrospectionDelegated

  const CHALLENGE := "Basic realm=\"/api/introspection\""

  function AuthenticateApiCaller(credentials: BasicCredentials): (accepted: bool)
    ensures credentials.userId.None? ==> !accepted
    ensures credentials.userId == Some("nobody") ==> !accepted
    ensures credentials.userId.Some? && credentials.userId.value != "nobody" ==> accepted
  {
    if credentials.userId.None? then false
    else if credentials.userId.value == "nobody" then false
    else true
  }

  function Handle(credentials: BasicCredentials): (r: Response)
    ensures r == Unauthorized(CHALLENGE) <==> !AuthenticateApiCaller(credentials)
    ensures r == IntrospectionDelegated <==> AuthenticateApiCaller(credentials)
  {
    if !AuthenticateApiCaller(credentials) then Unauthorized(CHALLENGE) else IntrospectionDelegated
  }

  /** The password never changes the answer. */
  lemma PasswordIsIgnored(userId: Option<string>, p1: Option<string>, p2: Option<string>)
    ensures Handle(BasicCredentials(userId, p1)) == Handle(BasicCredentials(userId, p2))
  {
  }
}
