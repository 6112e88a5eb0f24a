/**
 * The callback the engine's token handler uses for the resource owner password credentials
 * grant (section 4.3 of RFC 6749): the subject of the user the credentials identify, if
 * that user is active.
 */
module TokenRequestHandlerSpi {
  import opened Wrappers
  import opened Identity

  function AuthenticateUser(authenticate: Authenticator, username: string, password: string): (subject: Option<UserId>)
    ensures authenticate(Some(username), Some(password)).None? ==> subject.None?
    ensures authenticate(Some(username), Some(password)).Some? ==>
      var u := authenticate(Some(username), Some(password)).value;
      subject == if u.isActive then Some(u.id) else None
  {
    match authenticate(Some(username), Some(password))
    case None => None
    case Some(u) => if !u.isActive then None else Some(u.id)
  }

  /** The answer is never anything but nothing or the id of the user the credentials identify. */
  lemma SubjectComesFromAuthenticatedUser(authenticate: Authenticator, username: string, password: string)
    ensures AuthenticateUser(authenticate, username, password).Some? ==>
      && authenticate(Some(username), Some(password)).Some?
      && AuthenticateUser(authenticate, username, password).value == authenticate(Some(username), Some(password)).value.id
  {
  }
}
