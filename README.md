# Decision rules of a demonstration OpenID Connect provider

The provider is a thin Django layer in front of a hosted authorization engine (Authlete).
The engine parses requests, issues tokens and keeps consent tickets. This layer holds a
handful of decision rules of its own, and this project models those rules in Dafny and
proves their properties:

- **Authorization endpoint**: decides whether the user must log in again. The rules are
  checked in order: nobody logged in; `prompt` includes `login`; the required subject is
  not the current user; `max_age` has passed (section 3.1.2.1 of OpenID Connect Core 1.0).
  It then fills the consent-page model. When a login is needed, it logs the user out and
  pre-fills the login id from `login_hint` (editable) or from the required subject's
  username (read-only). If the required subject has no local user, it reports
  `NOT_AUTHENTICATED` for the ticket. Otherwise it records the ticket, the claim names
  and the claim locales in the session.
- **Consent-page model**: a class whose service, client and scope descriptions are fixed
  at construction (`const`). It has one setter per mutable field, and each setter's
  `modifies` clause names only its own field.
- **Claim resolver**: supplies four standard claims (section 5.1 of OpenID Connect Core
  1.0) from the user record. It also gives the time of the last login and the current
  subject. An instance looks the user up once and then reuses that result for every
  later subject.
- **Decision endpoint**: logs the user in from the posted credentials when nobody is
  logged in. It takes the choice from the presence of the `authorized` field and reads
  back what the authorization endpoint stored in the session.
- **Introspection caller check** (section 2.1 of RFC 7662): any Basic user id except
  `nobody` is accepted, whatever the password. Every other caller gets 401 with the
  challenge `Basic realm="/api/introspection"`.
- **Password-grant user check** (section 4.3 of RFC 6749), and the no-interaction
  "is the user authenticated" answer.
- **Cognito backend**: authenticates against an Amazon Cognito user pool. A missing
  user-pool setting, and every exception raised by the two Cognito calls, becomes `None`. The pool's `UserAttributes` are copied onto the local user that is
  found or created for the username, and the user is saved once.

The request user, the session, the user table, the engine's response and the Cognito
calls' answers are plain values. The request is a class whose `user` and `session` fields
change in place. Django's `logout` and `login` are modelled as what they do to the
request. `logout` makes the user anonymous and empties the session. `login` sets the
user and records the user's key, the backend and the session hash in the session. It
keeps the rest of the session, unless the session already records another login; then
it starts from an empty session.

## Model

| member | source | states |
|---|---|---|
| `AuthorizationEndpoint.LoginRequired` | api/authorization_endpoint.py:160-189 | no user means login; `prompt=login` means login, before the subject and age rules are looked at; a required subject that is not the current user means login; no login exactly when a user is logged in, `login` is not prompted, the subject (if any) is theirs and `max_age` is unset or not passed; it raises exactly when the age rule needs a missing `last_login` |
| `AuthorizationEndpoint.IsLoginRequired` | api/authorization_endpoint.py:160-189 | the rules run in the source's order, with the prompt search done by its loop, and give exactly the decision above |
| `AuthorizationEndpoint.IsLoginIncludedInPrompt` | api/authorization_endpoint.py:192-204 | true iff a `prompt` parameter exists and one of its values is `login` |
| `AuthorizationEndpoint.IsMaxAgeExceeded` | api/authorization_endpoint.py:207-222 | `max_age <= 0` is never exceeded; otherwise exceeded iff the elapsed seconds are more than `max_age`; raises only when `last_login` is missing and `max_age > 0` |
| `AuthorizationEndpoint.MaxAgeBoundary` | api/authorization_endpoint.py:217-222 | exactly `max_age` seconds after the last login is not exceeded; one second more is |
| `AuthorizationEndpoint.MaxAgeExceededStaysExceeded` | api/authorization_endpoint.py:214-222 | once exceeded, the age stays exceeded at every later time |
| `AuthorizationEndpoint.PrepareModel` | api/authorization_endpoint.py:120-157 | no login: the user stays logged in, the session is kept, `userName` is the first name and the login-id fields stay empty; login: the user is logged out and the session emptied; `loginId` is `login_hint` (or empty) and editable when no subject is required; it is the required subject's username and `readonly` when that user exists; no model when that user is missing; the model always carries the response's descriptions and the decided `loginRequired`; every model it returns satisfies `PageFor` |
| `AuthorizationEndpoint.StoreInteraction` | api/authorization_endpoint.py:109-114 | the session gains exactly the `ticket`, `claimNames` and `claimLocales` keys with the response's values; every other key keeps its value |
| `AuthorizationEndpoint.HandleInteraction` | api/authorization_endpoint.py:97-117 | a missing required user gives `NOT_AUTHENTICATED` for the same ticket, leaves the user logged out and writes nothing to the session; a rendered page is the one `PrepareModel` builds (`PageFor`: descriptions, login flag, the greeted first name or the pre-filled `login_hint` or the read-only username of the required subject), and has the three keys written over the (possibly emptied) session; a raise changes nothing |
| `AuthorizationEndpoint.Handle` | api/authorization_endpoint.py:46-68 | `INTERACTION` does exactly what `HandleInteraction` does: when it raises, fails or shows the page, the page's login-id field and greeting (`PageFor`), the user and session afterwards, and the three session values; `NO_INTERACTION` goes to the no-interaction handler with fresh callbacks on this request; any other action goes to the error handler; only `INTERACTION` may change the user or the session |
| `AuthorizationEndpoint.SubjectMismatchAgreesWithLookup` | api/authorization_endpoint.py:174-179 | the corrected subject rule stays quiet exactly when looking the required subject up finds the current user |
| `AuthorizationEndpoint.OwnSubjectNeverMismatches` | api/authorization_endpoint.py:174-179 | a user whose own subject is required is not sent back to log in by the subject rule |
| `AuthorizationEndpoint.SubjectRuleAsWritten` | api/authorization_endpoint.py:174-179 | the rule as written, Python's `!=` between an `int` and a `str`, fires for every user id and every subject |
| `AuthorizationEndpoint.SubjectMismatch` | api/authorization_endpoint.py:174-179 | the corrected rule stays quiet only for a non-empty decimal subject whose value is the current user's id |
| `AuthorizationEndpoint.MatchingSubjectStillForcesLoginAsWritten` | api/authorization_endpoint.py:174-179 | for user 7 and subject "7" the rule as written fires, the corrected one does not |
| `PageModel.AuthorizationPageModel.constructor` | api/authorization_page_model.py:19-32 | the service name, client name, description, logo, client, policy and terms URIs and the scopes come from the response; `loginId` and `loginIdReadOnly` are empty, `userName` is `None` and `loginRequired` is unassigned |
| `PageModel.AuthorizationPageModel.SetLoginId` | api/authorization_page_model.py:80-82 | sets `loginId` to the value and may change no other field |
| `PageModel.AuthorizationPageModel.SetLoginIdReadOnly` | api/authorization_page_model.py:90-92 | sets `loginIdReadOnly` to the value and may change no other field |
| `PageModel.AuthorizationPageModel.SetLoginRequired` | api/authorization_page_model.py:100-102 | assigns `loginRequired` and may change no other field |
| `PageModel.AuthorizationPageModel.SetUserName` | api/authorization_page_model.py:110-112 | sets `userName` to the value and may change no other field |
| `AuthorizationRequestHandlerSpi.ClaimValue` | api/spi/authorization_request_handler_spi_impl.py:30-51 | no user gives no claim; `name` is "first last" iff both parts are non-empty; `given_name`, `family_name` and `email` are the field iff it is non-empty; every other claim name gives nothing |
| `AuthorizationRequestHandlerSpi.AuthorizationRequestHandlerSpiImpl.GetUser` | api/spi/authorization_request_handler_spi_impl.py:54-63 | the first call looks the subject up and remembers the result, `None` included; later calls return it unchanged whatever subject they pass; the table is queried at most once |
| `AuthorizationRequestHandlerSpi.AuthorizationRequestHandlerSpiImpl.GetUserClaimValue` | api/spi/authorization_request_handler_spi_impl.py:30-34 | the claim value for the remembered user; the language tag plays no part |
| `AuthorizationRequestHandlerSpi.AuthorizationRequestHandlerSpiImpl.constructor` | api/spi/authorization_request_handler_spi_impl.py:24-27 | an instance starts with no remembered user, not tried, and holds the request |
| `AuthorizationRequestHandlerSpi.AuthorizationRequestHandlerSpiImpl.GetUserAuthenticatedAt` | api/spi/authorization_request_handler_spi_impl.py:66-75 | 0 when nobody is logged in or `last_login` is unset, the last-login seconds otherwise |
| `AuthorizationRequestHandlerSpi.AuthorizationRequestHandlerSpiImpl.GetUserSubject` | api/spi/authorization_request_handler_spi_impl.py:78-83 | `None` iff nobody is logged in, the user's id otherwise |
| `AuthorizationRequestHandlerSpi.ClaimLookupsShareOneUserLookup` | api/spi/authorization_request_handler_spi_impl.py:54-63 | two claim lookups on one instance with different subjects both answer for the first subject's user |
| `NoInteractionHandlerSpi.NoInteractionHandlerSpiImpl.constructor` | api/spi/no_interaction_handler_spi_impl.py:23-24 | a new instance holds fresh callbacks on the request with an empty user memo |
| `NoInteractionHandlerSpi.NoInteractionHandlerSpiImpl.IsUserAuthenticated` | api/spi/no_interaction_handler_spi_impl.py:27-28 | true iff a subject is known, that is, iff the request's user is authenticated; it reads and changes nothing else |
| `AuthorizationDecisionEndpoint.IsClientAuthorized` | api/authorization_decision_endpoint.py:66-69 | the user pressed "Authorize" exactly when the form has an `authorized` field |
| `AuthorizationDecisionEndpoint.AuthorizedIgnoresValue` | api/authorization_decision_endpoint.py:66-69 | the form authorizes whenever it has an `authorized` field, whatever its value, and not without one |
| `AuthorizationDecisionEndpoint.ReadDecisionInputs` | api/authorization_decision_endpoint.py:77-82 | absent session keys read as `None` |
| `AuthorizationDecisionEndpoint.SessionHandoff` | api/authorization_decision_endpoint.py:77-82 | what the authorization endpoint stores is exactly what the decision endpoint reads back, whatever else the session holds |
| `AuthorizationDecisionEndpoint.LoginKeepsHandoff` | api/authorization_decision_endpoint.py:63-82 | a login over a session that records no other login leaves the ticket and claims the decision handler reads unchanged |
| `AuthorizationDecisionEndpoint.LoginOverAnotherLoginLosesHandoff` | api/authorization_decision_endpoint.py:63-82 | a login over a session that records another login flushes it, so the handler gets no ticket and no claims |
| `AuthorizationDecisionEndpoint.AuthenticateUserIfNecessary` | api/authorization_decision_endpoint.py:45-63 | an already logged-in user and the session are kept; otherwise, when the posted `loginId` and `password` authenticate a user, that user is logged in and the session becomes `LoginSession` of the old one; when they do not, the user stays anonymous and the session is kept |
| `AuthorizationDecisionEndpoint.Handle` | api/authorization_decision_endpoint.py:33-82 | authenticates first; the handler then gets `authorized` iff the form has the field, the user as logged in by then, and the ticket and claims read from the session as it is after the login; a failed login still submits the decision |
| `Web.LoginSession` | api/authorization_decision_endpoint.py:63 | `login` records the user's decimal key, the backend and the session hash; every other key keeps its value unless the session records another user's key or a different session hash, in which case nothing else is kept |
| `Web.HttpRequest.Login` | api/authorization_decision_endpoint.py:63 | the user becomes the authenticated one and the session becomes `LoginSession` of the old one |
| `Web.HttpRequest.Logout` | api/authorization_endpoint.py:133 | the user becomes anonymous and the session is emptied |
| `IntrospectionEndpoint.AuthenticateApiCaller` | api/introspection_endpoint.py:53-75 | no user id is rejected, `nobody` is rejected, any other user id is accepted |
| `IntrospectionEndpoint.Handle` | api/introspection_endpoint.py:29-50 | a rejected caller gets 401 with `Basic realm="/api/introspection"`; an accepted caller goes to the introspection handler, and only then |
| `IntrospectionEndpoint.PasswordIsIgnored` | api/introspection_endpoint.py:73-75 | the password never changes the answer |
| `TokenRequestHandlerSpi.AuthenticateUser` | api/spi/token_request_handler_spi_impl.py:23-37 | `None` when authentication fails or the user is inactive; the user's id when the user is active |
| `TokenRequestHandlerSpi.SubjectComesFromAuthenticatedUser` | api/spi/token_request_handler_spi_impl.py:29-37 | any subject given is the id of the user the credentials identify |
| `CognitoBackend.CallOrNone` | backends/cognito_backend.py:81-127 | no configured pool means no call and `None`; any raised exception means `None`; otherwise the call's response |
| `CognitoBackend.GetOrCreate` | backends/cognito_backend.py:139-144 | the existing user with the username, or a new one under the next key appended to the table; the table's constraints are kept |
| `CognitoBackend.LastValue` | backends/cognito_backend.py:151-166 | the value of the last attribute with the name, or the default when none has it |
| `CognitoBackend.ApplyAttribute` | backends/cognito_backend.py:151-166 | an `email`, `given_name` or `family_name` attribute sets that one field to its value; any other attribute changes nothing; the key, username, active flag and last login never change |
| `CognitoBackend.ApplyAttributes` | backends/cognito_backend.py:151-166 | `email`, `given_name` and `family_name` set the email, first and last name to their last given value; other names and other fields are untouched |
| `CognitoBackend.Save` | backends/cognito_backend.py:168 | afterwards the user is in the table, every row with another key is still there, and no row other than the user is new |
| `CognitoBackend.SaveKeepsValid` | backends/cognito_backend.py:168 | saving a user over its own row keeps keys and usernames unique and leaves other users' rows in place |
| `CognitoBackend.BuiltUser` | backends/cognito_backend.py:138-170 | the user returned has the username; it keeps the key of the row found for the username, or gets the next key; an existing user with no `UserAttributes` is returned as found and nothing is written |
| `CognitoBackend.BuildUser` | backends/cognito_backend.py:138-170 | the loop copies the attributes one by one and saves once, after the loop; without `UserAttributes` the found or created user is returned unsaved |
| `CognitoBackend.BuiltUserKeepsTable` | backends/cognito_backend.py:138-170 | afterwards exactly one row has the username, it is the user returned, and rows of other usernames are untouched |
| `CognitoBackend.GetUser` | backends/cognito_backend.py:70-78 | `None` and no table change when the pool gives nothing; otherwise the built user |
| `CognitoBackend.Authenticate` | backends/cognito_backend.py:59-67 | `None` and no table change when the pool rejects the credentials; otherwise exactly what `get_user(username)` gives |
| `CognitoBackend.UnconfiguredAuthenticatesNobody` | backends/cognito_backend.py:83-84 | without a user-pool id `authenticate` gives `None` and leaves the table alone, whatever the pool would answer |
| `Identity.ParseSubjectOf` | api/authorization_endpoint.py:147 | parsing the decimal subject of an id gives the id back |
| `Identity.FindBySubject` | api/authorization_endpoint.py:145-151 | the user found has the id the subject denotes; nothing is found for a non-numeric subject or an unknown id |
| `Identity.FindBySubjectOf` | api/spi/authorization_request_handler_spi_impl.py:57 | a user's own subject always finds that user |

## Findings

| source | as written | input that shows it | evidently intended | confidence | as-written member | corrected member |
|---|---|---|---|---|---|---|
| api/authorization_endpoint.py:174-179 | `request.user.id != response.subject` compares Django's integer primary key with the engine's subject string. In Python an `int` never equals a `str`, so the rule fires whenever a subject is required. | user 7 is logged in and the request requires subject `"7"`: login is demanded and the user is logged out | the rule fires only when the required subject does not denote the current user, using the same conversion `User.objects.get(id=subject)` uses at line 147 | medium, not executed: it rests on the engine's response giving `subject` as a string and on Django's default integer key | `AuthorizationEndpoint.MatchingSubjectStillForcesLoginAsWritten` | `AuthorizationEndpoint.SubjectMismatchAgreesWithLookup` |

`AuthorizationEndpoint.SubjectRuleAsWritten` is the rule as written. `AuthorizationEndpoint.SubjectMismatch` is the corrected rule, and `LoginRequired` uses it.

## Left out

- Calls into the engine are outcomes only, because their behaviour is not in this code. These are the authorization API call, the fail API, the no-interaction, error, decision and introspection handlers, and `ResponseUtility`.
- `api/spi/authorization_request_decision_handler_spi_impl.py` and `api/base_endpoint.py` are not part of this model. The decision endpoint only records what it hands to the handler.
- `api/views.py` and `django_oauth_server/urls.py` are routing only.
- Template rendering, logging, HTTP status objects and session persistence are left out.
- `BasicCredentials.parse` is an input: the user id and password it yields.
- Time is whole seconds given as `now`, and `last_login` is whole seconds. The source subtracts a datetime from a float clock value, and that mixed-type arithmetic is not modelled.
- `AuthorizationRequestHandlerSpi.AuthorizationRequestHandlerSpiImpl.GetUserAuthenticatedAt`: returns the stored seconds, not `int(datetime.timestamp())`, so time zones and fractional seconds are not modelled.
- `Identity.FindBySubject`: accepts plain ASCII digit strings only. Python's `int()` also accepts signs, surrounding whitespace, underscores and non-ASCII digits.
- `AuthorizationDecisionEndpoint.AuthenticateUserIfNecessary`: says that a logged-in user and the session stay as they were. It does not say that `authenticate` is not called, because the authenticator here is a pure function whose calls cannot be observed.
- `Web.HttpRequest.Login`: does not model the update of `last_login` (a signal handler), the CSRF token rotation or the new session key Django gives a session it keeps. The model keeps only the session data.
- `Web.LoginFlushes`: a stored `_auth_user_id` that is not a decimal string makes Django raise while converting it. The model treats it as another user's key.
- The backend path and the user's session hash (an HMAC of the password hash) are inputs of the decision endpoint.
- `request.POST` is a map from field to one value. Repeated form fields are not modelled.
- `NoInteractionHandlerSpi.NoInteractionHandlerSpiImpl`: the source class inherits from the authorization-request callbacks. Here it holds an instance of them, because inheritance between classes is not used in this model.
- `CognitoBackend.Authenticate`: the password only feeds the Cognito call. That call's answer is an input, so the password does not appear in the contract.
- Cognito's network calls and the boto3 client are left out. A call's answer, a response or an exception, is an input. `COGNITO_CLIENT_ID` only feeds the AdminInitiateAuth call, so the settings hold the user-pool id alone.
- `CognitoBackend.BuiltUser`: failures inside `__build_user` are not caught by the source and escape from `authenticate` and `get_user`. The model does not capture them. They are a `UserAttributes` entry without `Value` (`KeyError`), `create_user` rejecting the username or hitting the unique constraint, and `save()` failing. The model always builds the user.
- `CognitoBackend.GetOrCreate`: Django's `create_user` normalises the username to NFKC. The model stores the username as given. In the source, a Cognito username that is not in NFKC form is stored under another name, so a later lookup misses it and `create_user` then hits the unique constraint. `BuiltUserKeepsTable`'s "one row per username" relies on that normalisation being absent.
- `CognitoBackend.BuiltUserKeepsTable`: assumes the table already satisfies its database constraints (unique keys, unique usernames). No operation of the model requires this.
