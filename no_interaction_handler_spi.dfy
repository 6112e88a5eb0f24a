/**
 * The callbacks used when the engine asks for no user interaction (`prompt=none`). In the
 * source this class extends the authorization-request callbacks; here it holds an instance
 * of them, made from the same request, and answers "is the user authenticated" from it.
 */
module NoInteractionHandlerSpi {
  import opened Identity
  import opened Web
  import opened AuthorizationRequestHandlerSpi

  class NoInteractionHandlerSpiImpl {
    const base: AuthorizationRequestHandlerSpiImpl

    constructor (request: HttpRequest)
      ensures fresh(base) && base.Valid()
      ensures base.request == request
      ensures base.user.None? && !base.tried
    {
      base := new AuthorizationRequestHandlerSpiImpl(request);
    }

    /** True exactly when a subject is known, that is, when somebody is logged in. */
    function IsUserAuthenticated(): (b: bool)
      reads base.request
      ensures b <==> base.GetUserSubject().Some?
      ensures b <==> base.request.user.Authenticated?
    {
      base.GetUserSubject().Some?
    }
  }
}
