/**
 * The callbacks the engine's handlers use to learn about the end user: claim values for a
 * subject (the four standard claims of section 5.1 of OpenID Connect Core 1.0 that Django's
 * user record can supply), the time of the last login and the current subject.
 *
 * An instance looks the subject's user up at most once: the first lookup's result, even
 * `None`, is remembered and returned for every later call, whatever subject it passes.
 */
module AuthorizationRequestHandlerSpi {
  import opened Wrappers
  import opened Identity
  import opened Web
  import opened AuthleteDto

  /** A profile field as a claim value: present only when it is a non-empty string. */
  function NonEmpty(field: string): (v: Option<string>)
    ensures v.Some? <==> field != ""
    ensures v.Some? ==> v.value == field
  {
    if field != "" then Some(field) else None
  }

  /** The value of claim `claimName` for the user found for the subject (if one was found). */
  function ClaimValue(user: Option<User>, claimName: string): (v: Option<string>)
    ensures user.None? ==> v == None
    ensures claimName == NAME ==>
      (v.Some? <==> user.Some? && user.value.firstName != "" && user.value.lastName != "")
    ensures claimName == NAME && v.Some? ==> v.value == user.value.firstName + " " + user.value.lastName
    ensures claimName == GIVEN_NAME ==> v == (if user.Some? then NonEmpty(user.value.firstName) else None)
    ensures claimName == FAMILY_NAME ==> v == (if user.Some? then NonEmpty(user.value.lastName) else None)
    ensures claimName == EMAIL ==> v == (if user.Some? then NonEmpty(user.value.email) else None)
    ensures claimName !in {NAME, GIVEN_NAME, FAMILY_NAME, EMAIL} ==> v == None
  {
    match user
    case None => None
    case Some(u) =>
      if claimName == NAME then
        if u.firstName != "" && u.lastName != "" then Some(u.firstName + " " + u.lastName) else None
      else if claimName == GIVEN_NAME then NonEmpty(u.firstName)
      else if claimName == FAMILY_NAME then NonEmpty(u.lastName)
      else if claimName == EMAIL then NonEmpty(u.email)
      else None
  }

  class AuthorizationRequestHandlerSpiImpl {
    /** The remembered result of the user lookup. */
    var user: Option<User>
    /** Whether the lookup has been made. */
    var tried: bool
    /** How many times the user table has been queried. */
    ghost var lookups: nat
    const request: HttpRequest

    ghost predicate Valid()
      reads this
    {
      && lookups == (if tried then 1 else 0)
      && (!tried ==> user == None)
    }

    constructor (request: HttpRequest)
      ensures Valid()
      ensures user == None && !tried && lookups == 0
      ensures this.request == request
    {
      user := None;
      tried := false;
      lookups := 0;
      this.request := request;
    }

    /** The user for `subject`, looked up in `store` on the first call only. */
    method GetUser(store: UserStore, subject: string) returns (u: Option<User>)
      requires Valid()
      modifies this`user, this`tried, this`lookups
      ensures Valid() && tried && lookups <= 1
      ensures u == user
      ensures old(tried) ==> user == old(user) && lookups == old(lookups)
      ensures !old(tried) ==> user == FindBySubject(store, subject)
    {
      if !tried {
        user := FindBySubject(store, subject);
        lookups := lookups + 1;
        tried := true;
      }
      u := user;
    }

    /** `languageTag` is accepted and ignored. */
    method GetUserClaimValue(store: UserStore, subject: string, claimName: string, languageTag: Option<string>)
      returns (v: Option<string>)
      requires Valid()
      modifies this`user, this`tried, this`lookups
      ensures Valid() && tried && lookups <= 1
      ensures old(tried) ==> user == old(user)
      ensures !old(tried) ==> user == FindBySubject(store, subject)
      ensures v == ClaimValue(user, claimName)
    {
      var u := GetUser(store, subject);
      v := ClaimValue(u, claimName);
    }

    /** Seconds of the last login; 0 for an anonymous user or one who never logged in. */
    function GetUserAuthenticatedAt(): (t: int)
      reads request
      ensures request.user.Anonymous? ==> t == 0
      ensures request.user.Authenticated? && request.user.user.lastLogin.None? ==> t == 0
      ensures request.user.Authenticated? && request.user.user.lastLogin.Some? ==> t == request.user.user.lastLogin.value
    {
      match request.user
      case Anonymous => 0
      case Authenticated(u) => u.lastLogin.GetOr(0)
    }

    /** The current user's id, `None` when nobody is logged in. */
    function GetUserSubject(): (s: Option<UserId>)
      reads request
      ensures s.None? <==> request.user.Anonymous?
      ensures s.Some? ==> s.value == request.user.user.id
    {
      match request.user
      case Anonymous => None
      case Authenticated(u) => Some(u.id)
    }
  }

  /**
   * Two claim lookups on one instance: the second reuses the user found by the first, even
   * though it passes another subject, and the table is queried once.
   */
  method ClaimLookupsShareOneUserLookup(request: HttpRequest, store: UserStore, first: string, second: string, claimName: string)
    returns (v1: Option<string>, v2: Option<string>)
    ensures v1 == ClaimValue(FindBySubject(store, first), claimName)
    ensures v2 == v1
  {
    var spi := new AuthorizationRequestHandlerSpiImpl(request);
    v1 := spi.GetUserClaimValue(store, first, claimName, None);
    v2 := spi.GetUserClaimValue(store, second, claimName, None);
    assert spi.lookups == 1;
  }
}
