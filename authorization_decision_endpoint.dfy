/**
 * The endpoint the consent page posts to. It logs the user in from the submitted login id
 * and password when nobody is logged in yet, takes the user's choice from the form, reads
 * back the ticket and requested claims the authorization endpoint stored in the session,
 * and hands all of it to the engine's decision handler.
 */
module AuthorizationDecisionEndpoint {
  import opened Wrappers
  import opened Identity
  import opened Web
  import opened AuthleteDto
  import opened AuthorizationEndpoint

  /** The "Authorize" button was pressed: the form has an `authorized` field, whatever its value. */
  predicate IsClientAuthorized(post: map<string, string>) {
    "authorized" in post
  }

  /** Only the presence of the field counts, not its value. */
  lemma AuthorizedIgnoresValue(post: map<string, string>, value: string)
    ensures IsClientAuthorized(post["authorized" := value])
    ensures !IsClientAuthorized(post - {"authorized"})
  {
  }

  /** The values the decision handler is given, as read from the session. */
  datatype DecisionInputs = DecisionInputs(ticket: SessionValue, claimNames: SessionValue, claimLocales: SessionValue)

  function ReadDecisionInputs(session: Session): (d: DecisionInputs)
    ensures TICKET_KEY !in session ==> d.ticket == Null
    ensures CLAIM_NAMES_KEY !in session ==> d.claimNames == Null
    ensures CLAIM_LOCALES_KEY !in session ==> d.claimLocales == Null
  {
    DecisionInputs(SessionGet(session, TICKET_KEY), SessionGet(session, CLAIM_NAMES_KEY), SessionGet(session, CLAIM_LOCALES_KEY))
  }

  /**
   * The session handoff: what the authorization endpoint stores is exactly what the decision
   * endpoint reads back, whatever else the session holds.
   */
  lemma SessionHandoff(session: Session, response: AuthorizationResponse)
    ensures ReadDecisionInputs(StoreInteraction(session, response))
         == DecisionInputs(Str(response.ticket), ListValue(response.claims), ListValue(response.claimsLocales))
  {
  }

  /**
   * Logging in keeps the handoff: unless the session records another login, the decision
   * handler still reads back what the authorization endpoint stored.
   */
  lemma LoginKeepsHandoff(session: Session, u: User, backend: string, authHash: string)
    requires !LoginFlushes(session, u, authHash)
    ensures ReadDecisionInputs(LoginSession(session, u, backend, authHash)) == ReadDecisionInputs(session)
  {
  }

  /**
   * A login over a session that records another login flushes it: the handler then gets no
   * ticket and no claims, whatever the authorization endpoint stored.
   */
  lemma LoginOverAnotherLoginLosesHandoff(session: Session, u: User, backend: string, authHash: string)
    requires LoginFlushes(session, u, authHash)
    ensures ReadDecisionInputs(LoginSession(session, u, backend, authHash)) == DecisionInputs(Null, Null, Null)
  {
  }

  /**
   * Logs the user in with the posted credentials, unless somebody is already logged in.
   * `backend` is the backend that authenticates the credentials and `authHash` gives each
   * user's session hash.
   */
  method AuthenticateUserIfNecessary(request: HttpRequest, authenticate: Authenticator, backend: string, authHash: User -> string)
    modifies request
    ensures old(request.user).Authenticated? ==> request.user == old(request.user) && request.session == old(request.session)
    ensures old(request.user).Anonymous? ==>
      match authenticate(request.PostGet("loginId"), request.PostGet("password"))
      case None => request.user == Anonymous && request.session == old(request.session)
      case Some(u) => request.user == Authenticated(u) && request.session == LoginSession(old(request.session), u, backend, authHash(u))
  {
    if request.user.Authenticated? {
      return;
    }
    var loginId := request.PostGet("loginId");
    var password := request.PostGet("password");
    var user := authenticate(loginId, password);
    if user.None? {
      return;
    }
    request.Login(user.value, backend, authHash(user.value));
  }

  /** What the decision handler receives: the session's values, the choice, and who is logged in by then. */
  datatype DecisionCall = DecisionCall(inputs: DecisionInputs, authorized: bool, user: RequestUser)

  /** Authenticates if necessary, then reads the choice and, from the session as it is by then, the stored interaction. */
  method Handle(request: HttpRequest, authenticate: Authenticator, backend: string, authHash: User -> string)
    returns (call: DecisionCall)
    modifies request
    ensures call.authorized <==> "authorized" in request.post
    ensures call.user == request.user
    ensures call.inputs == ReadDecisionInputs(request.session)
    ensures old(request.user).Authenticated? ==> request.user == old(request.user) && request.session == old(request.session)
    ensures old(request.user).Anonymous? ==>
      match authenticate(request.PostGet("loginId"), request.PostGet("password"))
      case None => request.user == Anonymous && request.session == old(request.session)
      case Some(u) => request.user == Authenticated(u) && request.session == LoginSession(old(request.session), u, backend, authHash(u))
  {
    AuthenticateUserIfNecessary(request, authenticate, backend, authHash);
    var authorized := IsClientAuthorized(request.post);
    call := DecisionCall(ReadDecisionInputs(request.session), authorized, request.user);
  }
}
