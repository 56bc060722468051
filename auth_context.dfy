/** Signing in and out (src/context/AuthContext.tsx): `login` turns the server's answer
    into the stored user, choosing a role from the role names and a token from the fields
    the answer carries; `logout` forgets the user; at start-up a stored user is restored.
    The server call itself is a parameter: its answer, or `None` when the call throws. */
module Auth {
  import opened Wrappers
  import opened JsonValue
  import opened LocalStore

  /** `AUTH_STORAGE_KEY`. */
  const UserKey := "latin_academy_user"
  /** The key older code reads the token from. */
  const TokenKey := "token"
  /** The token used when the answer carries none. */
  const PlaceholderToken := "test_token_for_development"

  datatype Role = Admin | Employee | Teacher | Student

  /** The role as the user record stores it. */
  function RoleText(r: Role): string {
    match r
    case Admin => "admin"
    case Employee => "employee"
    case Teacher => "teacher"
    case Student => "student"
  }

  /** The `data` of a login answer, as far as `login` reads it; absent fields are `None`.
      The answer's full type is not part of this model. */
  datatype LoginData = LoginData(
    token: Option<string>,
    accessToken: Option<string>,
    userId: Option<int>,
    userName: Option<string>,
    email: Option<string>,
    roles: Option<seq<string>>,
    expiresIn: Option<int>)

  datatype LoginResponse = LoginResponse(error: Option<string>, data: Option<LoginData>)

  /** The stored user. */
  datatype User = User(
    id: Option<int>,
    name: string,
    role: Role,
    accessToken: string,
    email: Option<string>,
    roles: Option<seq<string>>,
    expiresIn: Option<int>)

  /** JavaScript truthiness of an optional text. */
  predicate Given(s: Option<string>) {
    s.Some? && s.value != ""
  }

  /** The answer is accepted: no error is reported and data is present. */
  predicate Accepted(response: LoginResponse) {
    !Given(response.error) && response.data.Some?
  }

  /** The token `login` keeps: `token` when given, else `accessToken` when given, else the
      placeholder. */
  function TokenOf(d: LoginData): (t: string)
    ensures t != ""
    ensures Given(d.token) ==> t == d.token.value
    ensures !Given(d.token) && Given(d.accessToken) ==> t == d.accessToken.value
    ensures !Given(d.token) && !Given(d.accessToken) ==> t == PlaceholderToken
  {
    if !Given(d.token) && Given(d.accessToken) then d.accessToken.value
    else if !Given(d.token) then PlaceholderToken
    else d.token.value
  }

  /** The role `login` chooses: "Admin" wins over "Teacher", which wins over "Student";
      anything else, or no role names at all, gives an employee. */
  function RoleOf(roles: Option<seq<string>>): (r: Role)
    ensures r == Admin <==> roles.Some? && "Admin" in roles.value
    ensures r == Teacher <==> roles.Some? && "Admin" !in roles.value && "Teacher" in roles.value
    ensures r == Student <==> roles.Some? && "Admin" !in roles.value && "Teacher" !in roles.value
                              && "Student" in roles.value
    ensures r == Employee <==> roles.None? || ("Admin" !in roles.value && "Teacher" !in roles.value
                                               && "Student" !in roles.value)
  {
    if roles.Some? && |roles.value| > 0 then
      if "Admin" in roles.value then Admin
      else if "Teacher" in roles.value then Teacher
      else if "Student" in roles.value then Student
      else Employee
    else Employee
  }

  /** The user `login` builds from accepted data and the name that was typed in. */
  function UserOf(d: LoginData, typed: string): (u: User)
    ensures u.accessToken == TokenOf(d) && u.role == RoleOf(d.roles)
    ensures Given(d.userName) ==> u.name == d.userName.value
    ensures !Given(d.userName) ==> u.name == typed
    ensures u.id == d.userId && u.email == d.email && u.roles == d.roles
    ensures u.expiresIn == d.expiresIn
  {
    User(d.userId, if Given(d.userName) then d.userName.value else typed, RoleOf(d.roles),
         TokenOf(d), d.email, d.roles, d.expiresIn)
  }

  /** The user as `JSON.stringify` writes it: `undefined` fields are dropped, so an optional
      field is present exactly when it is defined, and no other key is written. */
  function UserJson(u: User): (j: Json)
    ensures j.JObj? && Field(j, "accessToken") == Some(JStr(u.accessToken))
    ensures Field(j, "name") == Some(JStr(u.name)) && Field(j, "role") == Some(JStr(RoleText(u.role)))
    ensures Field(j, "id") == if u.id.Some? then Some(JNum(u.id.value)) else None
    ensures Field(j, "email") == if u.email.Some? then Some(JStr(u.email.value)) else None
    ensures Field(j, "roles") == if u.roles.Some? then Some(RoleList(u.roles.value)) else None
    ensures Field(j, "expiresIn") == if u.expiresIn.Some? then Some(JNum(u.expiresIn.value)) else None
    ensures j.fields.Keys <= {"name", "role", "accessToken", "id", "email", "roles", "expiresIn"}
  {
    var base := map["name" := JStr(u.name), "role" := JStr(RoleText(u.role)),
                    "accessToken" := JStr(u.accessToken)];
    var withId := if u.id.Some? then base["id" := JNum(u.id.value)] else base;
    var withEmail := if u.email.Some? then withId["email" := JStr(u.email.value)] else withId;
    var withRoles := if u.roles.Some? then withEmail["roles" := RoleList(u.roles.value)] else withEmail;
    JObj(if u.expiresIn.Some? then withRoles["expiresIn" := JNum(u.expiresIn.value)] else withRoles)
  }

  /** A list of role names as a JSON array of texts, in order. */
  function RoleList(names: seq<string>): (j: Json)
    ensures j.JArr? && |j.items| == |names|
    ensures forall i :: 0 <= i < |names| ==> j.items[i] == JStr(names[i])
  {
    JArr(seq(|names|, i requires 0 <= i < |names| => JStr(names[i])))
  }

  /** The start-up check: the stored user when the stored value is truthy. */
  function Restored(m: Entries): (r: Option<Json>)
    ensures r.Some? ==> Present(m, UserKey) && Truthy(r.value)
  {
    var stored := Read(m, UserKey, JNull);
    if Truthy(stored) then Some(stored) else None
  }

  /** Restarting after a sign-in restores the user that was signed in, whose stored token is
      the one written under the token key. */
  lemma RestoreAfterLogin(m: Entries, u: User)
    ensures var m' := Write(m, UserKey, UserJson(u))[TokenKey := Raw(u.accessToken)];
            Restored(m') == Some(UserJson(u)) &&
            Field(Restored(m').value, "accessToken") == Some(JStr(m'[TokenKey].text))
  {
    var m' := Write(m, UserKey, UserJson(u))[TokenKey := Raw(u.accessToken)];
    assert m'[UserKey] == Doc(UserJson(u));
  }

  /** Restarting after a sign-out restores nobody. */
  lemma RestoreAfterLogout(m: Entries)
    ensures Restored(m - {UserKey}).None?
  {
  }

  /** The signed-in state and the storage it keeps. */
  class AuthProvider {
    const store: Store
    var user: Option<Json>
    var isAuthenticated: bool

    /** Mounting restores a stored user, if any. */
    constructor (store0: Store)
      ensures store == store0
      ensures user == Restored(store0.entries) && isAuthenticated == user.Some?
    {
      store := store0;
      var stored := Read(store0.entries, UserKey, JNull);
      if Truthy(stored) {
        user := Some(stored);
        isAuthenticated := true;
      } else {
        user := None;
        isAuthenticated := false;
      }
    }

    /** `login` with the server's answer (`None` when the call throws): on an accepted
        answer the user record and the token are written, the user is kept and `true` is
        returned; otherwise nothing changes and `false` is returned. */
    method Login(typed: string, response: Option<LoginResponse>) returns (ok: bool)
      modifies this`user, this`isAuthenticated, store
      ensures ok <==> response.Some? && Accepted(response.value)
      ensures !ok ==> user == old(user) && isAuthenticated == old(isAuthenticated)
                      && store.entries == old(store.entries)
      ensures ok ==> var u := UserOf(response.value.data.value, typed);
                     user == Some(UserJson(u)) && isAuthenticated &&
                     store.entries == Write(old(store.entries), UserKey, UserJson(u))[TokenKey := Raw(u.accessToken)]
    {
      if response.None? || Given(response.value.error) || response.value.data.None? {
        return false;
      }
      var u := UserOf(response.value.data.value, typed);
      store.Save(UserKey, UserJson(u));
      store.SetItem(TokenKey, u.accessToken);
      user := Some(UserJson(u));
      isAuthenticated := true;
      return true;
    }

    /** `logout`: the user is forgotten and its record removed; the token key stays. */
    method Logout()
      modifies this`user, this`isAuthenticated, store
      ensures user.None? && !isAuthenticated
      ensures store.entries == old(store.entries) - {UserKey}
      ensures TokenKey in old(store.entries) ==>
                TokenKey in store.entries && store.entries[TokenKey] == old(store.entries)[TokenKey]
    {
      user := None;
      isAuthenticated := false;
      store.RemoveItem(UserKey);
    }
  }
}
