/** The sign-in page: the login and registration schemas, the defaults the
    query string selects, and the redirect of a user who is already signed
    in. */
module Auth {
  import opened Wrappers
  import opened Schema

  /** The decoded query parameters, in order. */
  type Params = seq<(string, string)>

  /** `URLSearchParams.get`: the value of the first parameter with that
      name, if any. */
  function Get(params: Params, name: string): (r: Option<string>)
    ensures r.None? <==> forall i :: 0 <= i < |params| ==> params[i].0 != name
    ensures r.Some? ==> exists i :: 0 <= i < |params| && params[i] == (name, r.value)
                                    && forall j :: 0 <= j < i ==> params[j].0 != name
  {
    if |params| == 0 then None
    else if params[0].0 == name then Some(params[0].1)
    else
      var r := Get(params[1..], name);
      if r.Some? then
        var i :| 0 <= i < |params[1..]| && params[1..][i] == (name, r.value)
                 && forall j :: 0 <= j < i ==> params[1..][j].0 != name;
        assert params[i + 1] == (name, r.value);
        assert forall j :: 0 <= j < i + 1 ==> params[j].0 != name by {
          forall j | 0 <= j < i + 1
            ensures params[j].0 != name
          {
            if j > 0 { assert params[j] == params[1..][j - 1]; }
          }
        }
        r
      else r
  }

  /** The role the registration form starts with: contractor only when the
      query asks for it. */
  function DefaultRole(params: Params): (r: Role)
    ensures r == Contractor <==> Get(params, "role") == Some("contractor")
    ensures r != Admin
  {
    if Get(params, "role") == Some("contractor") then Contractor else Company
  }

  datatype Tab = Login | Register

  /** The tab the page opens on: registration only when the query asks. */
  function DefaultTab(params: Params): (t: Tab)
    ensures t == Register <==> Get(params, "tab") == Some("register")
  {
    if Get(params, "tab") == Some("register") then Register else Login
  }

  /** `loginSchema`: both fields filled in. */
  predicate LoginAccepts(username: string, password: string) {
    |username| >= 1 && |password| >= 1
  }

  datatype RegisterValues = RegisterValues(username: string, email: string, password: string, role: string)

  /** `registerSchema`: the email check is the validator passed in, and the
      role is one of the two self-service roles. */
  predicate RegisterAccepts(v: RegisterValues, isEmail: string -> bool) {
    && |v.username| >= 3
    && isEmail(v.email)
    && |v.password| >= 6
    && (v.role == "company" || v.role == "contractor")
  }

  /** The registration form's starting values. */
  function RegisterDefaults(params: Params): (v: RegisterValues)
    ensures v.username == "" && v.email == "" && v.password == ""
    ensures ParseRole(v.role) == Some(DefaultRole(params))
  {
    RegisterValues("", "", "", RoleName(DefaultRole(params)))
  }

  /** Where a signed-in visitor is sent: the dashboard, at once. */
  function Redirect(user: Option<User>): (r: Option<string>)
    ensures r.Some? <==> user.Some?
    ensures r.Some? ==> r.value == "/dashboard"
  {
    if user.Some? then Some("/dashboard") else None
  }

  function Insert(v: RegisterValues): UserInsert {
    UserInsert(Some(v.username), Some(v.email), Some(v.password), Some(v.role))
  }

  // ----- Properties -----

  /** The registration form is stricter than the server's user schema: it
      accepts what the schema accepts minus the admin role, so nobody can
      sign up as an admin. */
  lemma RegisterStricterThanSchema(v: RegisterValues, isEmail: string -> bool)
    ensures RegisterAccepts(v, isEmail) ==> UserInsertAccepts(Insert(v), isEmail)
    ensures RegisterAccepts(v, isEmail) ==> ParseRole(v.role).value != Admin
    ensures UserInsertAccepts(Insert(v), isEmail) && v.role != "admin" ==> RegisterAccepts(v, isEmail)
  {
  }

  /** The default role always passes the role check, and a fresh form is
      refused until a username is typed. */
  lemma DefaultsNeedInput(params: Params, isEmail: string -> bool)
    ensures var v := RegisterDefaults(params); v.role == "company" || v.role == "contractor"
    ensures !RegisterAccepts(RegisterDefaults(params), isEmail)
    ensures !LoginAccepts("", "")
  {
  }

  /** Only the first `role` parameter counts. */
  lemma FirstRoleWins(params: Params, later: string)
    requires Get(params, "role") == Some("contractor")
    ensures DefaultRole(params + [("role", later)]) == Contractor
  {
    GetAppend(params, [("role", later)], "role");
  }

  lemma {:induction false} GetAppend(params: Params, more: Params, name: string)
    requires Get(params, name).Some?
    ensures Get(params + more, name) == Get(params, name)
  {
    if params[0].0 != name {
      assert (params + more)[1..] == params[1..] + more;
      GetAppend(params[1..], more, name);
    }
  }
}
