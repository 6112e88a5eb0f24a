/**
 * The local user records the endpoints and backends work with: Django's `User` model
 * reduced to the fields the core reads or writes, the request's current user, and the
 * user table as a value.
 *
 * Subjects travel as strings (the engine hands them over as text), while user ids are
 * integers; `SubjectOf` and `ParseId` are the two conversions between them, and
 * `FindBySubject` is `User.objects.get(id=subject)`.
 */
module Identity {
  import opened Wrappers

  type UserId = nat

  /** Django's `User`: `last_login` is kept in whole seconds, `None` when never set. */
  datatype User = User(
    id: UserId,
    username: string,
    firstName: string,
    lastName: string,
    email: string,
    isActive: bool,
    lastLogin: Option<int>)

  /** `request.user`: the anonymous user, or an authenticated `User`. */
  datatype RequestUser = Anonymous | Authenticated(user: User)

  /**
   * Django's `authenticate(username=..., password=...)`, whatever backend is configured:
   * the user the credentials identify, or `None`.
   */
  type Authenticator = (Option<string>, Option<string>) -> Option<User>

  /** The user table: its rows and the next value of the primary-key sequence. */
  datatype UserStore = UserStore(rows: seq<User>, nextId: UserId)

  /** The table's own constraints: primary keys and usernames are unique, keys come from the sequence. */
  predicate Valid(store: UserStore) {
    && (forall i, j :: 0 <= i < j < |store.rows| ==>
          store.rows[i].id != store.rows[j].id && store.rows[i].username != store.rows[j].username)
    && (forall i :: 0 <= i < |store.rows| ==> store.rows[i].id < store.nextId)
  }

  /** The position of the row with primary key `id`, if any (the first one). */
  function IndexOfId(rows: seq<User>, id: UserId): (k: Option<nat>)
    ensures k.Some? ==> k.value < |rows| && rows[k.value].id == id
    ensures k.Some? ==> forall j :: 0 <= j < k.value ==> rows[j].id != id
    ensures k.None? <==> forall j :: 0 <= j < |rows| ==> rows[j].id != id
  {
    if rows == [] then None
    else if rows[|rows| - 1].id == id && IndexOfId(rows[..|rows| - 1], id).None? then Some(|rows| - 1)
    else IndexOfId(rows[..|rows| - 1], id)
  }

  /** The position of the row whose username is `name`, if any (the first one). */
  function IndexOfUsername(rows: seq<User>, name: string): (k: Option<nat>)
    ensures k.Some? ==> k.value < |rows| && rows[k.value].username == name
    ensures k.Some? ==> forall j :: 0 <= j < k.value ==> rows[j].username != name
    ensures k.None? <==> forall j :: 0 <= j < |rows| ==> rows[j].username != name
  {
    if rows == [] then None
    else if rows[|rows| - 1].username == name && IndexOfUsername(rows[..|rows| - 1], name).None? then Some(|rows| - 1)
    else IndexOfUsername(rows[..|rows| - 1], name)
  }

  /** `User.objects.get(id=id)`, with `DoesNotExist` as `None`. */
  function FindById(store: UserStore, id: UserId): (r: Option<User>)
    ensures r.Some? ==> r.value in store.rows && r.value.id == id
    ensures r.None? <==> forall u :: u in store.rows ==> u.id != id
  {
    match IndexOfId(store.rows, id)
    case None => None
    case Some(k) => Some(store.rows[k])
  }

  /** `User.objects.get(username=name)`, with `DoesNotExist` as `None`. */
  function FindByUsername(store: UserStore, name: string): (r: Option<User>)
    ensures r.Some? ==> r.value in store.rows && r.value.username == name
    ensures r.None? <==> forall u :: u in store.rows ==> u.username != name
  {
    match IndexOfUsername(store.rows, name)
    case None => None
    case Some(k) => Some(store.rows[k])
  }

  predicate IsDigit(c: char) {
    '0' <= c <= '9'
  }

  predicate AllDigits(s: string) {
    forall i :: 0 <= i < |s| ==> IsDigit(s[i])
  }

  function DigitChar(d: nat): (c: char)
    requires d < 10
    ensures IsDigit(c) && c as int - '0' as int == d
  {
    ('0' as int + d) as char
  }

  /** The number a string of decimal digits denotes (leading zeros allowed). */
  function DigitsValue(s: string): nat
    requires AllDigits(s)
  {
    if s == [] then 0
    else DigitsValue(s[..|s| - 1]) * 10 + (s[|s| - 1] as int - '0' as int)
  }

  /** `str(id)`: the decimal rendering of a user id, the subject the engine sees. */
  function SubjectOf(id: UserId): (s: string)
    ensures s != [] && AllDigits(s)
    ensures |s| > 1 ==> s[0] != '0'
  {
    if id < 10 then [DigitChar(id)] else SubjectOf(id / 10) + [DigitChar(id % 10)]
  }

  /** The integer conversion Django applies to `id=subject`: a non-empty digit string, or nothing. */
  function ParseId(s: string): (r: Option<UserId>)
    ensures r.Some? <==> s != [] && AllDigits(s)
  {
    if s != [] && AllDigits(s) then Some(DigitsValue(s)) else None
  }

  /** Parsing the subject of a user id gives that id back. */
  lemma {:induction false} ParseSubjectOf(id: UserId)
    ensures ParseId(SubjectOf(id)) == Some(id)
  {
    var s := SubjectOf(id);
    if id < 10 {
      assert s[..|s| - 1] == [];
    } else {
      ParseSubjectOf(id / 10);
      assert s[..|s| - 1] == SubjectOf(id / 10);
      assert DigitsValue(s) == (id / 10) * 10 + id % 10;
    }
  }

  /** `User.objects.get(id=subject)`: no user when the subject is not a number or no row has that key. */
  function FindBySubject(store: UserStore, subject: string): (r: Option<User>)
    ensures r.Some? ==> r.value in store.rows && ParseId(subject) == Some(r.value.id)
    ensures r.None? <==> (ParseId(subject).None? || forall u :: u in store.rows ==> Some(u.id) != ParseId(subject))
  {
    match ParseId(subject)
    case None => None
    case Some(id) => FindById(store, id)
  }

  /** The subject a user id is rendered as always finds that user again. */
  lemma FindBySubjectOf(store: UserStore, u: User)
    requires u in store.rows && Valid(store)
    ensures FindBySubject(store, SubjectOf(u.id)) == Some(u)
  {
    ParseSubjectOf(u.id);
    var r := FindById(store, u.id);
    assert r.Some?;
    var i :| 0 <= i < |store.rows| && store.rows[i] == r.value;
    var j :| 0 <= j < |store.rows| && store.rows[j] == u;
    assert i == j;
  }
}
