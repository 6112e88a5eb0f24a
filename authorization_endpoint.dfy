/**
 * The authorization endpoint. The engine's authorization API has already parsed the
 * request; its `action` says whether the user must be shown the consent page
 * (`Interaction`), whether `prompt=none` is to be answered without a page
 * (`NoInteraction`), or which error to return.
 *
 * For the consent page, the endpoint first decides whether the user must log in (again),
 * by an ordered list of rules over `prompt`, the required subject and `max_age` (section
 * 3.1.2.1 of OpenID Connect Core 1.0), then fills the page model, logging the current user
 * out when a login is needed, and finally records the ticket and the requested claims in
 * the session for the decision endpoint.
 */
module AuthorizationEndpoint {
  import opened Wrappers
  import opened Identity
  import opened Web
  import opened AuthleteDto
  import opened PageModel
  import opened NoInteractionHandlerSpi

  const TICKET_KEY := "ticket"
  const CLAIM_NAMES_KEY := "claimNames"
  const CLAIM_LOCALES_KEY := "claimLocales"

  // ---------------------------------------------------------------------------------
  // The subject rule as the source writes it, and as evidently intended.

  /** A Python value as far as `!=` is concerned: an `int` never equals a `str`. */
  datatype PyValue = PyInt(i: int) | PyStr(s: string)

  /**
   * The subject rule as written: the current user's id (an integer) is compared with the
   * required subject (a string) by Python's `!=`, so it fires for every user and every subject.
   */
  function SubjectRuleAsWritten(id: UserId, subject: string): (fires: bool)
    ensures fires
  {
    PyInt(id) != PyStr(subject)
  }

  /**
   * User 7 is logged in and the request requires subject "7", which denotes user 7: the
   * rule as written still demands a new login; the corrected rule does not.
   */
  lemma MatchingSubjectStillForcesLoginAsWritten()
    ensures ParseId("7") == Some(7)
    ensures SubjectRuleAsWritten(7, "7")
    ensures !SubjectMismatch(7, "7")
  {
  }

  /** The subject rule as intended: the required subject does not denote the current user. */
  predicate SubjectMismatch(id: UserId, subject: string): (mismatch: bool)
    ensures !mismatch ==> subject != [] && AllDigits(subject) && DigitsValue(subject) == id
  {
    ParseId(subject) != Some(id)
  }

  /**
   * The corrected rule agrees with the user lookup: it stays quiet exactly when looking the
   * required subject up finds the current user.
   */
  lemma SubjectMismatchAgreesWithLookup(store: UserStore, u: User, subject: string)
    requires Valid(store) && u in store.rows
    ensures !SubjectMismatch(u.id, subject) <==> FindBySubject(store, subject) == Some(u)
  {
  }

  /** A user whose own subject is required never has to log in again because of it. */
  lemma OwnSubjectNeverMismatches(id: UserId)
    ensures !SubjectMismatch(id, SubjectOf(id))
  {
    ParseSubjectOf(id);
  }

  // ---------------------------------------------------------------------------------
  // Is a login required?

  /** The request's `prompt` values include `login`. */
  predicate PromptIncludesLogin(prompts: Option<seq<Prompt>>) {
    prompts.Some? && Login in prompts.value
  }

  /** Searches the `prompt` values for `login`; no `prompt` parameter means no. */
  method IsLoginIncludedInPrompt(prompts: Option<seq<Prompt>>) returns (included: bool)
    ensures included <==> prompts.Some? && exists i :: 0 <= i < |prompts.value| && prompts.value[i] == Login
  {
    if prompts.None? {
      return false;
    }
    var values := prompts.value;
    var i := 0;
    while i < |values|
      invariant 0 <= i <= |values|
      invariant forall j :: 0 <= j < i ==> values[j] != Login
    {
      if values[i] == Login {
        return true;
      }
      i := i + 1;
    }
    return false;
  }

  /**
   * Whether more than `maxAge` seconds have passed since the last login, at time `now`.
   * A non-positive `maxAge` means no limit. `None`: the elapsed time cannot be computed
   * because `last_login` is not set, and the source raises.
   */
  function IsMaxAgeExceeded(maxAge: int, now: int, lastLogin: Option<int>): (r: Option<bool>)
    ensures maxAge <= 0 ==> r == Some(false)
    ensures r.None? <==> maxAge > 0 && lastLogin.None?
    ensures r == Some(true) <==> maxAge > 0 && lastLogin.Some? && now - lastLogin.value > maxAge
  {
    if maxAge <= 0 then Some(false)
    else match lastLogin
      case None => None
      case Some(t) =>
        var age := now - t;
        if age <= maxAge then Some(false) else Some(true)
  }

  /** Exactly `maxAge` seconds after the last login the age is not exceeded; one second later it is. */
  lemma MaxAgeBoundary(maxAge: int, lastLogin: int)
    requires maxAge > 0
    ensures IsMaxAgeExceeded(maxAge, lastLogin + maxAge, Some(lastLogin)) == Some(false)
    ensures IsMaxAgeExceeded(maxAge, lastLogin + maxAge + 1, Some(lastLogin)) == Some(true)
  {
  }

  /** Once exceeded, the age stays exceeded as time goes on. */
  lemma MaxAgeExceededStaysExceeded(maxAge: int, now: int, later: int, lastLogin: int)
    requires now <= later
    requires IsMaxAgeExceeded(maxAge, now, Some(lastLogin)) == Some(true)
    ensures IsMaxAgeExceeded(maxAge, later, Some(lastLogin)) == Some(true)
  {
  }

  /**
   * The ordered rules: nobody logged in; `prompt` includes `login`; the required subject is
   * not the current user; the maximum authentication age has passed. The first rule that
   * applies decides. `None`: the last rule raised.
   */
  function LoginRequired(current: RequestUser, response: AuthorizationResponse, now: int): (r: Option<bool>)
    ensures current.Anonymous? ==> r == Some(true)
    ensures current.Authenticated? && PromptIncludesLogin(response.prompts) ==> r == Some(true)
    ensures current.Authenticated? && response.subject.Some? && SubjectMismatch(current.user.id, response.subject.value)
      ==> r == Some(true)
    ensures r == Some(false) <==>
      && current.Authenticated?
      && !PromptIncludesLogin(response.prompts)
      && (response.subject.Some? ==> !SubjectMismatch(current.user.id, response.subject.value))
      && (response.maxAge <= 0 || (current.user.lastLogin.Some? && now - current.user.lastLogin.value <= response.maxAge))
    ensures r.None? <==>
      && current.Authenticated?
      && !PromptIncludesLogin(response.prompts)
      && (response.subject.Some? ==> !SubjectMismatch(current.user.id, response.subject.value))
      && response.maxAge > 0 && current.user.lastLogin.None?
  {
    match current
    case Anonymous => Some(true)
    case Authenticated(u) =>
      if PromptIncludesLogin(response.prompts) then Some(true)
      else if response.subject.Some? && SubjectMismatch(u.id, response.subject.value) then Some(true)
      else IsMaxAgeExceeded(response.maxAge, now, u.lastLogin)
  }

  /** The rules in the source's order, with the `prompt` search done by its loop. */
  method IsLoginRequired(current: RequestUser, response: AuthorizationResponse, now: int) returns (r: Option<bool>)
    ensures r == LoginRequired(current, response, now)
  {
    if current.Anonymous? {
      return Some(true);
    }
    var included := IsLoginIncludedInPrompt(response.prompts);
    if included {
      return Some(true);
    }
    if response.subject.Some? && SubjectMismatch(current.user.id, response.subject.value) {
      return Some(true);
    }
    r := IsMaxAgeExceeded(response.maxAge, now, current.user.lastLogin);
  }

  // ---------------------------------------------------------------------------------
  // The page model and the session.

  /**
   * Builds the page model. Without a login the page greets the current user by first name.
   * With a login the user is logged out first; the login-id field then holds `login_hint`
   * (editable), or, when a subject is required, that user's username (read-only). `null`
   * when the required subject has no user; `raised` when deciding raised.
   */
  /**
   * The page shown for the old user: the response's descriptions, the decided login flag, and
   * the login-id field and greeting of the branch that decision selects.
   */
  predicate PageFor(model: AuthorizationPageModel, oldUser: RequestUser, response: AuthorizationResponse, store: UserStore, now: int)
    reads model
  {
    && model.DescribesResponse(response)
    && model.loginRequired == LoginRequired(oldUser, response, now)
    && match LoginRequired(oldUser, response, now)
       case None => false
       case Some(false) =>
         // No login: the current user is greeted; the login-id field is unused.
         && oldUser.Authenticated?
         && model.userName == Some(oldUser.user.firstName)
         && model.loginId == "" && model.loginIdReadOnly == ""
       case Some(true) =>
         && model.userName == None
         && match response.subject
            // No required subject: `login_hint` pre-fills an editable field.
            case None => model.loginId == response.loginHint.GetOr("") && model.loginIdReadOnly == ""
            // A required subject: its user's username, read-only.
            case Some(subject) =>
              match FindBySubject(store, subject)
              case None => false
              case Some(u) => model.loginId == u.username && model.loginIdReadOnly == "readonly"
  }

  method PrepareModel(request: HttpRequest, response: AuthorizationResponse, store: UserStore, now: int)
    returns (model: AuthorizationPageModel?, raised: bool)
    modifies request
    ensures raised <==> LoginRequired(old(request.user), response, now).None?
    ensures raised ==> model == null && request.user == old(request.user) && request.session == old(request.session)
    ensures model != null ==> fresh(model) && model.DescribesResponse(response)
    ensures model != null ==> PageFor(model, old(request.user), response, store, now)
    ensures model != null ==> model.loginRequired == LoginRequired(old(request.user), response, now)
    // No login needed: the current user is kept and greeted; the login-id field is unused.
    ensures LoginRequired(old(request.user), response, now) == Some(false) ==>
      && model != null
      && model.userName == Some(old(request.user).user.firstName)
      && model.loginId == "" && model.loginIdReadOnly == ""
      && request.user == old(request.user) && request.session == old(request.session)
    // Login needed: the current user is logged out in every case.
    ensures LoginRequired(old(request.user), response, now) == Some(true) ==>
      request.user == Anonymous && request.session == map[]
    ensures LoginRequired(old(request.user), response, now) == Some(true) && response.subject.None? ==>
      && model != null
      && model.loginId == response.loginHint.GetOr("") && model.loginIdReadOnly == ""
      && model.userName == None
    ensures LoginRequired(old(request.user), response, now) == Some(true) && response.subject.Some? ==>
      match FindBySubject(store, response.subject.value)
      case None => model == null
      case Some(u) =>
        && model != null
        && model.loginId == u.username && model.loginIdReadOnly == "readonly"
        && model.userName == None
  {
    var m := new AuthorizationPageModel(response);
    var required := IsLoginRequired(request.user, response, now);
    if required.None? {
      return null, true;
    }
    raised := false;
    m.SetLoginRequired(required.value);

    if !required.value {
      m.SetUserName(Some(request.user.user.firstName));
      return m, false;
    }

    request.Logout();

    if response.subject.None? {
      if response.loginHint.Some? {
        m.SetLoginId(response.loginHint.value);
      }
      return m, false;
    }

    var found := FindBySubject(store, response.subject.value);
    if found.None? {
      return null, false;
    }
    m.SetLoginId(found.value.username);
    m.SetLoginIdReadOnly("readonly");
    model := m;
  }

  /** The session after the ticket and the requested claims have been recorded in it. */
  function StoreInteraction(session: Session, response: AuthorizationResponse): (s: Session)
    ensures s.Keys == session.Keys + {TICKET_KEY, CLAIM_NAMES_KEY, CLAIM_LOCALES_KEY}
    ensures s[TICKET_KEY] == Str(response.ticket)
    ensures s[CLAIM_NAMES_KEY] == ListValue(response.claims)
    ensures s[CLAIM_LOCALES_KEY] == ListValue(response.claimsLocales)
    ensures forall k :: k in session && k != TICKET_KEY && k != CLAIM_NAMES_KEY && k != CLAIM_LOCALES_KEY ==> s[k] == session[k]
  {
    session[TICKET_KEY := Str(response.ticket)]
           [CLAIM_NAMES_KEY := ListValue(response.claims)]
           [CLAIM_LOCALES_KEY := ListValue(response.claimsLocales)]
  }

  /** What the endpoint answers. */
  datatype Outcome =
    | RenderPage(model: AuthorizationPageModel)
      /** Reported to the engine's fail API for the ticket. */
    | AuthorizationFail(ticket: string, reason: AuthorizationFailReason)
      /** Handed to the engine's no-interaction handler with these callbacks. */
    | NoInteractionDelegated(spi: NoInteractionHandlerSpiImpl)
      /** Handed to the engine's error handler. */
    | ErrorDelegated
      /** An exception escaped the endpoint. */
    | ServerError

  /**
   * Shows the consent page, or reports `NOT_AUTHENTICATED` for the ticket when the required
   * subject has no user; only a shown page records the ticket and claims in the session.
   */
  method HandleInteraction(request: HttpRequest, response: AuthorizationResponse, store: UserStore, now: int)
    returns (outcome: Outcome)
    modifies request
    ensures outcome.RenderPage? || outcome.AuthorizationFail? || outcome.ServerError?
    ensures outcome.ServerError? <==> LoginRequired(old(request.user), response, now).None?
    ensures outcome.ServerError? ==> request.user == old(request.user) && request.session == old(request.session)
    ensures outcome.AuthorizationFail? <==>
      && LoginRequired(old(request.user), response, now) == Some(true)
      && response.subject.Some? && FindBySubject(store, response.subject.value).None?
    ensures outcome.AuthorizationFail? ==>
      && outcome == AuthorizationFail(response.ticket, NotAuthenticated)
      && request.user == Anonymous && request.session == map[]
    ensures outcome.RenderPage? ==>
      && fresh(outcome.model) && PageFor(outcome.model, old(request.user), response, store, now)
      && outcome.model.loginRequired == LoginRequired(old(request.user), response, now)
      && request.user == (if outcome.model.loginRequired == Some(true) then Anonymous else old(request.user))
      && request.session == StoreInteraction(if outcome.model.loginRequired == Some(true) then map[] else old(request.session), response)
  {
    var model, raised := PrepareModel(request, response, store, now);
    if raised {
      return ServerError;
    }
    if model == null {
      return AuthorizationFail(response.ticket, NotAuthenticated);
    }
    request.session := StoreInteraction(request.session, response);
    outcome := RenderPage(model);
  }

  /** Dispatches on the engine's action. */
  method Handle(request: HttpRequest, response: AuthorizationResponse, store: UserStore, now: int)
    returns (outcome: Outcome)
    modifies request
    // `INTERACTION`: exactly what `HandleInteraction` does.
    ensures response.action == Interaction ==>
      && (outcome.RenderPage? || outcome.AuthorizationFail? || outcome.ServerError?)
      && (outcome.ServerError? <==> LoginRequired(old(request.user), response, now).None?)
      && (outcome.ServerError? ==> request.user == old(request.user) && request.session == old(request.session))
      && (outcome.AuthorizationFail? <==>
            && LoginRequired(old(request.user), response, now) == Some(true)
            && response.subject.Some? && FindBySubject(store, response.subject.value).None?)
      && (outcome.AuthorizationFail? ==>
            && outcome == AuthorizationFail(response.ticket, NotAuthenticated)
            && request.user == Anonymous && request.session == map[])
      && (outcome.RenderPage? ==>
            && fresh(outcome.model) && PageFor(outcome.model, old(request.user), response, store, now)
            && outcome.model.loginRequired == LoginRequired(old(request.user), response, now)
            && request.user == (if outcome.model.loginRequired == Some(true) then Anonymous else old(request.user))
            && request.session == StoreInteraction(if outcome.model.loginRequired == Some(true) then map[] else old(request.session), response))
    ensures response.action == NoInteraction ==>
      && outcome.NoInteractionDelegated?
      && fresh(outcome.spi) && outcome.spi.base.request == request
      && outcome.spi.base.user.None? && !outcome.spi.base.tried
    ensures response.action != Interaction && response.action != NoInteraction ==> outcome == ErrorDelegated
    ensures response.action != Interaction ==>
      request.user == old(request.user) && request.session == old(request.session)
  {
    if response.action == Interaction {
      outcome := HandleInteraction(request, response, store, now);
    } else if response.action == NoInteraction {
      var spi := new NoInteractionHandlerSpiImpl(request);
      outcome := NoInteractionDelegated(spi);
    } else {
      outcome := ErrorDelegated;
    }
  }
}
