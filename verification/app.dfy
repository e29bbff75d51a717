/** The Flask handlers of roomies/app.py, each a pure transition from the
    users table, the session and the request to a response. Defects of the
    source are kept: where the Python raises, the outcome is `Crash`. */
module App {
  import opened Nullable
  import opened Store
  import opened Http

  const NoUsername := "Please provide username"
  const UsernameExists := "Username already exists"
  const NoPassword := "Please provide password & confirmation"
  const PasswordMismatch := "Password does not equal confirmation"
  const LoginNoUsername := "must provide username"
  const LoginNoPassword := "must provide password"
  const BadCredentials := "invalid username and/or password"
  const NoHouseholdName := "Must provide household name"
  const HouseholdTaken := "Household with this name already exists"
  const HouseholdUnknown := "Household with this name does not exist"
  const InvalidAction := "Invalid action selected"

  function Username(req: Request): Option<string> { Field(req.form, "username") }
  function Password(req: Request): Option<string> { Field(req.form, "password") }
  function Confirmation(req: Request): Option<string> { Field(req.form, "confirmation") }
  function Action(req: Request): Option<string> { Field(req.form, "action") }
  function HouseholdName(req: Request): Option<string> { Field(req.form, "household") }

  /** Both credentials were submitted and are non-empty. */
  predicate HasCredentials(req: Request) {
    Truthy(Username(req)) && Truthy(Password(req))
  }

  /** Some row carries the submitted username and a hash the password checks against. */
  predicate CredentialsMatch(users: Table, req: Request, check: (string, string) -> bool)
    requires HasCredentials(req)
  {
    exists i :: 0 <= i < |users| && users[i].username == Username(req).value
                && check(users[i].hash, Password(req).value)
  }

  /** A registration form that passes every check: a new, non-empty username
      and a non-empty password equal to its confirmation. */
  predicate ValidRegistration(users: Table, req: Request) {
    && Truthy(Username(req)) && !UsernameTaken(users, Username(req).value)
    && Truthy(Password(req)) && Truthy(Confirmation(req))
    && Password(req) == Confirmation(req)
  }

  /** A household form that passes the checks of `/no_household`: a
      non-empty name, and an action of create with a new name or join with
      an existing one. */
  predicate ChoiceAccepted(users: Table, req: Request) {
    && Truthy(HouseholdName(req))
    && ((Action(req) == Some("create") && !HouseholdExists(users, HouseholdName(req).value))
        || (Action(req) == Some("join") && HouseholdExists(users, HouseholdName(req).value)))
  }

  /** `/`: forgets the logged-in user whatever the method. */
  function Index(users: Table, session: Session): (r: Response)
    ensures r.session.userId.None? && r.session.household.None?
    ensures r.users == users
    ensures r.outcome == Render(IndexPage)
  {
    Response(Render(IndexPage), users, Cleared)
  }

  /** `/register`. The session is not read or written (apart from the
      `flash` message, which is not modelled); `generate` is
      werkzeug's salted `generate_password_hash` at the time of the call. */
  function Register(users: Table, session: Session, req: Request, generate: string -> string): (r: Response)
    ensures r.session == session
    ensures !r.outcome.Crash?
    ensures req.verb == Get ==> r.outcome == Render(RegisterPage) && r.users == users
    ensures r.outcome.Error? ==> r.outcome.code == 400 && r.users == users
    // the checks, in the order they are made
    ensures req.verb == Post && !Truthy(Username(req)) ==> r.outcome == Error(NoUsername, 400)
    ensures (req.verb == Post && Truthy(Username(req)) && UsernameTaken(users, Username(req).value))
              ==> r.outcome == Error(UsernameExists, 400)
    ensures (req.verb == Post && Truthy(Username(req)) && !UsernameTaken(users, Username(req).value)
               && (!Truthy(Password(req)) || !Truthy(Confirmation(req))))
              ==> r.outcome == Error(NoPassword, 400)
    ensures (req.verb == Post && Truthy(Username(req)) && !UsernameTaken(users, Username(req).value)
               && Truthy(Password(req)) && Truthy(Confirmation(req)) && Password(req) != Confirmation(req))
              ==> r.outcome == Error(PasswordMismatch, 400)
    // success appends exactly one row
    ensures r.outcome.Redirect? <==> req.verb == Post && ValidRegistration(users, req)
    ensures r.outcome.Redirect? ==>
              && r.outcome.location == "/"
              && Truthy(Username(req)) && Truthy(Password(req))
              && |r.users| == |users| + 1 && r.users[..|users|] == users
              && r.users[|users|].username == Username(req).value
              && r.users[|users|].hash == generate(Password(req).value)
              && r.users[|users|].household == None
              && !HasUser(users, r.users[|users|].id)
    ensures !r.outcome.Redirect? ==> r.users == users
    ensures UniqueUsernames(users) ==> UniqueUsernames(r.users)
    ensures WellFormed(users) ==> WellFormed(r.users)
  {
    if req.verb == Post then
      var username := Username(req);
      var password := Password(req);
      var confirmation := Confirmation(req);
      if !Truthy(username) then Response(Error(NoUsername, 400), users, session)
      else if |WithUsername(users, username.value)| != 0 then Response(Error(UsernameExists, 400), users, session)
      else if !Truthy(password) || !Truthy(confirmation) then Response(Error(NoPassword, 400), users, session)
      else if password != confirmation then Response(Error(PasswordMismatch, 400), users, session)
      else Response(Redirect("/"), Insert(users, username.value, generate(password.value)), session)
    else
      Response(Render(RegisterPage), users, session)
  }

  /** `/login`. The session is cleared before anything else. The first row
      with the submitted username is checked with werkzeug's
      `check_password_hash`, here `check`; when there is no such row the
      Python indexes an empty list and raises. */
  function Login(users: Table, session: Session, req: Request, check: (string, string) -> bool): (r: Response)
    ensures r.users == users
    ensures !r.outcome.Redirect? ==> r.session == Cleared
    ensures req.verb == Get ==> r.outcome == Render(LoginPage)
    ensures r.outcome.Error? ==> r.outcome.code == 403
    ensures req.verb == Post && !Truthy(Username(req)) ==> r.outcome == Error(LoginNoUsername, 403)
    ensures (req.verb == Post && Truthy(Username(req)) && !Truthy(Password(req)))
              ==> r.outcome == Error(LoginNoPassword, 403)
    ensures r.outcome.Crash? <==>
              req.verb == Post && HasCredentials(req) && !UsernameTaken(users, Username(req).value)
    ensures (req.verb == Post && HasCredentials(req) && UsernameTaken(users, Username(req).value))
              ==> r.outcome.Redirect? || r.outcome == Error(BadCredentials, 403)
    ensures r.outcome.Redirect? ==>
              && req.verb == Post && HasCredentials(req)
              && r.outcome.location == "/homepage"
              && exists i :: 0 <= i < |users| && users[i].username == Username(req).value
                             && check(users[i].hash, Password(req).value)
                             && r.session == Session(Some(users[i].id), None)
    ensures (WellFormed(users) && req.verb == Post && HasCredentials(req))
              ==> (r.outcome.Redirect? <==> CredentialsMatch(users, req, check))
  {
    var session := Cleared;
    var username := Username(req);
    var password := Password(req);
    if req.verb == Post then
      if !Truthy(username) then Response(Error(LoginNoUsername, 403), users, session)
      else if !Truthy(password) then Response(Error(LoginNoPassword, 403), users, session)
      else
        var rows := WithUsername(users, username.value);
        if |rows| == 0 then Response(Crash, users, session)
        else if !check(rows[0].hash, password.value) then
          assert WellFormed(users) ==> !CredentialsMatch(users, req, check) by {
            if WellFormed(users) {
              forall i | 0 <= i < |users| && users[i].username == username.value
                ensures !check(users[i].hash, password.value)
              {
                UniqueUsernameSelect(users, i);
              }
            }
          }
          Response(Error(BadCredentials, 403), users, session)
        else
          assert rows[0] in rows;
          assert exists k :: 0 <= k < |users| && users[k] == rows[0];
          Response(Redirect("/homepage"), users, Session(Some(rows[0].id), None))
    else
      Response(Render(LoginPage), users, session)
  }

  /** `/logout`. */
  function Logout(users: Table, session: Session): (r: Response)
    ensures r.session.userId.None? && r.session.household.None?
    ensures r.users == users
    ensures r.outcome == Redirect("/")
  {
    Response(Redirect("/"), users, Cleared)
  }

  /** `/homepage`: caches the user's household in the session and shows the
      household page when there is one. Reading `session["user_id"]` raises
      when it is absent, and so does subscripting the `None` that `fetchone`
      gives when no row has that id. */
  function Home(users: Table, session: Session): (r: Response)
    ensures r.users == users
    ensures r.outcome.Crash? <==> session.userId.None? || !HasUser(users, session.userId.value)
    ensures r.outcome.Crash? ==> r.session == session
    ensures !r.outcome.Crash? ==>
              && session.userId.Some?
              && exists i :: 0 <= i < |users| && users[i].id == session.userId.value
                             && r.session == session.(household := users[i].household)
                             && (Truthy(users[i].household) ==>
                                   r.outcome == Render(HouseholdPage(users[i].household.value, users[i].username)))
                             && (!Truthy(users[i].household) ==> r.outcome == Render(NoHouseholdPage))
    ensures !r.outcome.Crash? ==> r.session.userId == session.userId
    ensures !r.outcome.Crash? ==> r.outcome.Render? && (r.outcome.view.HouseholdPage? <==> Truthy(r.session.household))
  {
    if session.userId.None? then Response(Crash, users, session)
    else
      var nameRows := WithId(users, session.userId);
      if |nameRows| == 0 then Response(Crash, users, session)
      else
        var username := nameRows[0].username;
        var householdRows := WithId(users, session.userId);
        var household := if |householdRows| > 0 then householdRows[0].household else None;
        var session' := session.(household := household);
        if Truthy(household) then Response(Render(HouseholdPage(household.value, username)), users, session')
        else Response(Render(NoHouseholdPage), users, session')
  }

  /** `/no_household`: create a household under a new name or join one that
      exists, by overwriting the user's household column. After the UPDATE
      is committed the Python subscripts the bound method `cursor.fetchall`
      instead of its result and raises, so no success path reaches the
      redirect and the session is never updated. */
  function NoHousehold(users: Table, session: Session, req: Request): (r: Response)
    ensures r.session == session
    ensures !r.outcome.Redirect?
    ensures req.verb == Get ==> r.outcome == Render(NoHouseholdPage) && r.users == users
    ensures r.outcome.Error? ==> r.outcome.code == 400 && r.users == users
    ensures req.verb == Post && !Truthy(HouseholdName(req)) ==> r.outcome == Error(NoHouseholdName, 400)
    ensures (req.verb == Post && Truthy(HouseholdName(req))
               && Action(req) != Some("create") && Action(req) != Some("join"))
              ==> r.outcome == Error(InvalidAction, 400)
    ensures (req.verb == Post && Truthy(HouseholdName(req)) && Action(req) == Some("create"))
              ==> (r.outcome.Error? <==> HouseholdExists(users, HouseholdName(req).value))
    ensures (req.verb == Post && Truthy(HouseholdName(req)) && Action(req) == Some("join"))
              ==> (r.outcome.Error? <==> !HouseholdExists(users, HouseholdName(req).value))
    ensures req.verb == Post ==> !r.outcome.Render?
    ensures (req.verb == Post && ChoiceAccepted(users, req))
              ==> r.outcome == Crash && r.users == SetHousehold(users, session.userId, HouseholdName(req).value)
    ensures r.outcome.Crash? ==>
              && req.verb == Post && Truthy(HouseholdName(req))
              && (Action(req) == Some("create") || Action(req) == Some("join"))
              && r.users == SetHousehold(users, session.userId, HouseholdName(req).value)
    ensures WellFormed(users) ==> WellFormed(r.users)
  {
    var user := session.userId;
    if req.verb == Post then
      var action := Action(req);
      var household := HouseholdName(req);
      if !Truthy(household) then Response(Error(NoHouseholdName, 400), users, session)
      else if action == Some("create") then
        if |WithHousehold(users, household.value)| != 0 then Response(Error(HouseholdTaken, 400), users, session)
        else Response(Crash, SetHousehold(users, user, household.value), session)
      else if action == Some("join") then
        if |WithHousehold(users, household.value)| == 0 then Response(Error(HouseholdUnknown, 400), users, session)
        else Response(Crash, SetHousehold(users, user, household.value), session)
      else Response(Error(InvalidAction, 400), users, session)
    else
      Response(Render(NoHouseholdPage), users, session)
  }
}
