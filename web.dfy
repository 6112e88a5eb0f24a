/**
 * The parts of a Django request the core touches: the current user, the per-browser
 * session (a dictionary of stored values) and the submitted form fields, together with
 * Django's `login` and `logout`, which change the first two.
 */
module Web {
  import opened Wrappers
  import opened Identity

  /** A value stored in the session: Python `None`, a string, or a list of strings. */
  datatype SessionValue = Null | Str(s: string) | StrList(items: seq<string>)

  type Session = map<string, SessionValue>

  /** `session.get(key)`: the stored value, `None` when the key is absent. */
  function SessionGet(session: Session, key: string): (v: SessionValue)
    ensures key !in session ==> v == Null
    ensures key in session ==> v == session[key]
  {
    if key in session then session[key] else Null
  }

  /** An optional list of strings as the session stores it. */
  function ListValue(o: Option<seq<string>>): (v: SessionValue)
    ensures o.None? <==> v == Null
    ensures o.Some? ==> v == StrList(o.value)
  {
    match o
    case None => Null
    case Some(items) => StrList(items)
  }

  /** The keys under which Django's `login` records who is logged in. */
  const SESSION_KEY := "_auth_user_id"
  const BACKEND_SESSION_KEY := "_auth_user_backend"
  const HASH_SESSION_KEY := "_auth_user_hash"

  /**
   * `login` starts from an empty session when the session already records a login that is
   * not this user's: another user's key, or (when the user has a session hash) a stored hash
   * that differs from it. A stored key that is not a decimal string counts as another user's.
   */
  predicate LoginFlushes(session: Session, u: User, authHash: string) {
    && SESSION_KEY in session
    && (!(session[SESSION_KEY].Str? && ParseId(session[SESSION_KEY].s) == Some(u.id))
        || (authHash != "" && SessionGet(session, HASH_SESSION_KEY) != Str(authHash)))
  }

  /**
   * The session after `login`: the user's key, the backend and the session hash are
   * recorded; everything else is kept unless the session is flushed first.
   */
  function LoginSession(session: Session, u: User, backend: string, authHash: string): (s: Session)
    ensures s.Keys == (if LoginFlushes(session, u, authHash) then {} else session.Keys)
                      + {SESSION_KEY, BACKEND_SESSION_KEY, HASH_SESSION_KEY}
    ensures s[SESSION_KEY] == Str(SubjectOf(u.id)) && ParseId(s[SESSION_KEY].s) == Some(u.id)
    ensures s[BACKEND_SESSION_KEY] == Str(backend) && s[HASH_SESSION_KEY] == Str(authHash)
    ensures !LoginFlushes(session, u, authHash) ==>
      forall k :: k in session && k !in {SESSION_KEY, BACKEND_SESSION_KEY, HASH_SESSION_KEY} ==> s[k] == session[k]
  {
    ParseSubjectOf(u.id);
    var kept := if LoginFlushes(session, u, authHash) then map[] else session;
    kept[SESSION_KEY := Str(SubjectOf(u.id))][BACKEND_SESSION_KEY := Str(backend)][HASH_SESSION_KEY := Str(authHash)]
  }

  class HttpRequest {
    var user: RequestUser
    var session: Session
    /** `request.POST`: the submitted form fields. */
    const post: map<string, string>

    constructor (user: RequestUser, session: Session, post: map<string, string>)
      ensures this.user == user && this.session == session && this.post == post
    {
      this.user := user;
      this.session := session;
      this.post := post;
    }

    /** `request.POST.get(key)`. */
    function PostGet(key: string): (v: Option<string>)
      ensures v.Some? <==> key in post
      ensures v.Some? ==> v.value == post[key]
    {
      if key in post then Some(post[key]) else None
    }

    /** Django's `logout(request)`: the session is flushed and the user becomes anonymous. */
    method Logout()
      modifies this
      ensures user == Anonymous && session == map[]
    {
      session := map[];
      user := Anonymous;
    }

    /**
     * Django's `login(request, user)`: the session becomes `LoginSession` of the old one and
     * the user becomes the authenticated one. `backend` is the path of the backend that
     * authenticated the user and `authHash` the user's session hash.
     */
    method Login(u: User, backend: string, authHash: string)
      modifies this
      ensures user == Authenticated(u)
      ensures session == LoginSession(old(session), u, backend, authHash)
    {
      if LoginFlushes(session, u, authHash) {
        session := map[];
      }
      session := session[SESSION_KEY := Str(SubjectOf(u.id))]
                        [BACKEND_SESSION_KEY := Str(backend)]
                        [HASH_SESSION_KEY := Str(authHash)];
      user := Authenticated(u);
    }
  }
}
