/**
 * A Django authentication backend that asks an Amazon Cognito user pool: `authenticate`
 * checks the username and password with the pool's AdminInitiateAuth API and `get_user`
 * fetches the user's attributes with AdminGetUser, then finds or creates the local user
 * with that username and copies the email, given name and family name onto it.
 *
 * What each Cognito call answers is an input: the response it returns or the exception it
 * raises. Every exception, and a missing user-pool setting, becomes `None`.
 */
module CognitoBackend {
  import opened Wrappers
  import opened Identity
  import opened AuthleteDto

  datatype CognitoException = NotAuthorizedException | UserNotFoundException | OtherException

  /** What a call to the Cognito API gives: a response, or a raised exception. */
  datatype CallResult<T> = Returned(response: T) | Raised(exception: CognitoException)

  /** The user-pool id from the settings; `COGNITO_CLIENT_ID` only feeds the calls, whose answers are inputs. */
  datatype Settings = Settings(userPoolId: Option<string>)

  /** `settings.COGNITO_USER_POOL_ID` is set and non-empty. */
  predicate Configured(settings: Settings) {
    settings.userPoolId.Some? && settings.userPoolId.value != ""
  }

  /** AdminInitiateAuth's answer; it may ask for a further challenge instead of issuing tokens. */
  datatype InitiateAuthResponse = InitiateAuthResponse(challengeName: Option<string>)

  datatype Attribute = Attribute(name: string, value: string)

  /** AdminGetUser's answer; `None` when it has no `UserAttributes` entry. */
  datatype GetUserResponse = GetUserResponse(userAttributes: Option<seq<Attribute>>)

  /**
   * Either API call made through its wrapper: nothing when the pool is not configured (the
   * call is not made) or when the call raises, whatever the exception; otherwise its response.
   */
  function CallOrNone<T>(settings: Settings, call: CallResult<T>): (r: Option<T>)
    ensures !Configured(settings) ==> r.None?
    ensures call.Raised? ==> r.None?
    ensures Configured(settings) && call.Returned? ==> r == Some(call.response)
  {
    if !Configured(settings) then None
    else match call
      case Raised(_) => None
      case Returned(response) => Some(response)
  }

  /** `User.objects.create_user(username)`: an active user with empty names and email. */
  function NewUser(id: UserId, username: string): User {
    User(id, username, "", "", "", true, None)
  }

  /** The user with that username, or a new one inserted under the next primary key. */
  function GetOrCreate(store: UserStore, username: string): (r: (User, UserStore))
    ensures r.0.username == username
    ensures FindByUsername(store, username).Some? ==> r == (FindByUsername(store, username).value, store)
    ensures FindByUsername(store, username).None? ==>
      r == (NewUser(store.nextId, username), UserStore(store.rows + [NewUser(store.nextId, username)], store.nextId + 1))
    ensures Valid(store) ==> Valid(r.1) && r.0 in r.1.rows
  {
    match FindByUsername(store, username)
    case Some(u) => (u, store)
    case None =>
      var u := NewUser(store.nextId, username);
      (u, UserStore(store.rows + [u], store.nextId + 1))
  }

  /** The value of the last attribute called `name`, or `default` when there is none. */
  function LastValue(attributes: seq<Attribute>, name: string, default: string): (v: string)
    ensures (forall i :: 0 <= i < |attributes| ==> attributes[i].name != name) ==> v == default
    ensures (exists i :: 0 <= i < |attributes| && attributes[i].name == name) ==>
      exists i :: 0 <= i < |attributes| && attributes[i].name == name && attributes[i].value == v
        && forall j :: i < j < |attributes| ==> attributes[j].name != name
  {
    if attributes == [] then default
    else if attributes[|attributes| - 1].name == name then attributes[|attributes| - 1].value
    else
      var prefix := attributes[..|attributes| - 1];
      assert forall i :: 0 <= i < |prefix| ==> prefix[i] == attributes[i];
      LastValue(prefix, name, default)
  }

  /** One attribute copied onto the user: only `email`, `given_name` and `family_name` are used. */
  function ApplyAttribute(u: User, a: Attribute): (r: User)
    ensures r.id == u.id && r.username == u.username && r.isActive == u.isActive && r.lastLogin == u.lastLogin
    ensures r.email == (if a.name == EMAIL then a.value else u.email)
    ensures r.firstName == (if a.name == GIVEN_NAME then a.value else u.firstName)
    ensures r.lastName == (if a.name == FAMILY_NAME then a.value else u.lastName)
  {
    if a.name == EMAIL then u.(email := a.value)
    else if a.name == GIVEN_NAME then u.(firstName := a.value)
    else if a.name == FAMILY_NAME then u.(lastName := a.value)
    else u
  }

  /**
   * The attributes copied onto the user in order: each of the three fields ends up with the
   * last value given for it, and nothing else about the user changes.
   */
  function ApplyAttributes(u: User, attributes: seq<Attribute>): (r: User)
    ensures r == u.(email := LastValue(attributes, EMAIL, u.email),
                    firstName := LastValue(attributes, GIVEN_NAME, u.firstName),
                    lastName := LastValue(attributes, FAMILY_NAME, u.lastName))
  {
    if attributes == [] then u
    else ApplyAttribute(ApplyAttributes(u, attributes[..|attributes| - 1]), attributes[|attributes| - 1])
  }

  /**
   * `user.save()`: the row with the user's primary key is replaced; a user without one is
   * inserted. Afterwards the user is in the table, rows with other keys stay, and no other row appears.
   */
  function Save(store: UserStore, u: User): (r: UserStore)
    ensures u in r.rows && r.nextId == store.nextId
    ensures forall v :: v in store.rows && v.id != u.id ==> v in r.rows
    ensures forall v :: v in r.rows ==> v == u || v in store.rows
  {
    match IndexOfId(store.rows, u.id)
    case Some(k) =>
      ReplaceKeepsOtherRows(store.rows, k, u);
      store.(rows := store.rows[k := u])
    case None => store.(rows := store.rows + [u])
  }

  /** Replacing the row at `k` by one with the same key keeps every row with another key. */
  lemma ReplaceKeepsOtherRows(rows: seq<User>, k: nat, u: User)
    requires k < |rows| && rows[k].id == u.id
    ensures forall v :: v in rows && v.id != u.id ==> v in rows[k := u]
    ensures forall v :: v in rows[k := u] ==> v == u || v in rows
    ensures u in rows[k := u]
  {
    assert rows[k := u][k] == u;
    forall v | v in rows && v.id != u.id
      ensures v in rows[k := u]
    {
      var j :| 0 <= j < |rows| && rows[j] == v;
      assert rows[k := u][j] == v;
    }
  }

  /** Saving a row over itself with the same key and username keeps the table's constraints. */
  lemma SaveKeepsValid(store: UserStore, previous: User, u: User)
    requires Valid(store) && previous in store.rows
    requires u.id == previous.id && u.username == previous.username
    ensures Valid(Save(store, u)) && u in Save(store, u).rows
    ensures forall v :: v in store.rows && v.username != u.username ==> v in Save(store, u).rows
  {
  }

  /**
   * `__build_user` as a value: the user found or created for `userId`, with the response's
   * attributes copied onto it and saved; without attributes, the user as found or created.
   */
  function BuiltUser(store: UserStore, userId: string, response: GetUserResponse): (r: (User, UserStore))
    ensures r.0.username == userId
    // The user keeps the key of the row found for the username, or gets the next key.
    ensures FindByUsername(store, userId).Some? ==> r.0.id == FindByUsername(store, userId).value.id
    ensures FindByUsername(store, userId).None? ==> r.0.id == store.nextId && r.1.nextId == store.nextId + 1
    // An existing user without attributes is returned as found, and nothing is written.
    ensures FindByUsername(store, userId).Some? && response.userAttributes.None? ==>
      r == (FindByUsername(store, userId).value, store)
  {
    var (base, created) := GetOrCreate(store, userId);
    match response.userAttributes
    case None => (base, created)
    case Some(attributes) =>
      var u := ApplyAttributes(base, attributes);
      (u, Save(created, u))
  }

  /**
   * Building a user keeps the table's constraints, so exactly one row carries the username;
   * the user returned is that row, and rows of other usernames are untouched.
   */
  lemma BuiltUserKeepsTable(store: UserStore, userId: string, response: GetUserResponse)
    requires Valid(store)
    ensures var (u, after) := BuiltUser(store, userId, response);
      && Valid(after) && u in after.rows && u.username == userId
      && (forall v :: v in store.rows && v.username != userId ==> v in after.rows)
  {
    var (base, created) := GetOrCreate(store, userId);
    if response.userAttributes.Some? {
      var u := ApplyAttributes(base, response.userAttributes.value);
      SaveKeepsValid(created, base, u);
      forall v | v in store.rows && v.username != userId
        ensures v in created.rows
      {
      }
    }
  }

  /** Copying one more attribute is applying it to the user built from the ones before. */
  lemma ApplyAttributesStep(u: User, attributes: seq<Attribute>, i: nat)
    requires i < |attributes|
    ensures ApplyAttributes(u, attributes[..i + 1]) == ApplyAttribute(ApplyAttributes(u, attributes[..i]), attributes[i])
  {
    assert attributes[..i + 1][..i] == attributes[..i];
  }

  /** Finds or creates the user and copies the attributes onto it one by one, then saves once. */
  method BuildUser(store: UserStore, userId: string, response: GetUserResponse)
    returns (user: User, updated: UserStore)
    ensures (user, updated) == BuiltUser(store, userId, response)
  {
    var found := GetOrCreate(store, userId);
    user, updated := found.0, found.1;
    if response.userAttributes.None? {
      return;
    }
    var attributes := response.userAttributes.value;
    for i := 0 to |attributes|
      invariant user == ApplyAttributes(found.0, attributes[..i])
    {
      ghost var before := user;
      var name, value := attributes[i].name, attributes[i].value;
      if name == EMAIL {
        user := user.(email := value);
      } else if name == GIVEN_NAME {
        user := user.(firstName := value);
      } else if name == FAMILY_NAME {
        user := user.(lastName := value);
      }
      assert user == ApplyAttribute(before, attributes[i]);
      ApplyAttributesStep(found.0, attributes, i);
    }
    assert attributes[..|attributes|] == attributes;
    updated := Save(updated, user);
  }

  /** `get_user`: the pool's record of the user, folded into the local table; nothing when unavailable. */
  method GetUser(store: UserStore, settings: Settings, getUserCall: CallResult<GetUserResponse>, userId: string)
    returns (user: Option<User>, updated: UserStore)
    ensures CallOrNone(settings, getUserCall).None? ==> user.None? && updated == store
    ensures CallOrNone(settings, getUserCall).Some? ==>
      var built := BuiltUser(store, userId, getUserCall.response);
      user == Some(built.0) && updated == built.1
  {
    var response := CallOrNone(settings, getUserCall);
    if response.None? {
      return None, store;
    }
    var u;
    u, updated := BuildUser(store, userId, response.value);
    user := Some(u);
  }

  /**
   * `authenticate`: when the pool accepts the username and password (any response counts,
   * a further challenge included), exactly what `get_user(username)` gives; nothing otherwise.
   * `authCall` is the pool's answer to these credentials and `getUserCall` its answer for the username.
   */
  method Authenticate(store: UserStore, settings: Settings, authCall: CallResult<InitiateAuthResponse>,
                      getUserCall: CallResult<GetUserResponse>, username: string, password: string)
    returns (user: Option<User>, updated: UserStore)
    ensures CallOrNone(settings, authCall).None? ==> user.None? && updated == store
    ensures CallOrNone(settings, authCall).Some? && CallOrNone(settings, getUserCall).None? ==>
      user.None? && updated == store
    ensures CallOrNone(settings, authCall).Some? && CallOrNone(settings, getUserCall).Some? ==>
      var built := BuiltUser(store, username, getUserCall.response);
      user == Some(built.0) && updated == built.1
  {
    var response := CallOrNone(settings, authCall);
    if response.None? {
      return None, store;
    }
    user, updated := GetUser(store, settings, getUserCall, username);
  }

  /** Without a configured user pool nobody is authenticated and the table is left alone, whatever the pool would answer. */
  method UnconfiguredAuthenticatesNobody(store: UserStore, settings: Settings, authCall: CallResult<InitiateAuthResponse>,
                                         getUserCall: CallResult<GetUserResponse>, username: string, password: string)
    returns (user: Option<User>, updated: UserStore)
    requires !Configured(settings)
    ensures user.None? && updated == store
  {
    user, updated := Authenticate(store, settings, authCall, getUserCall, username, password);
  }
}
