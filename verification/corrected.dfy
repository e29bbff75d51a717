/** The two handlers whose Python raises on a path the authors evidently
    meant to succeed or fail cleanly, with the defect repaired; and the
    walk-through of the application's intended use, proved on them. */
module Corrected {
  import opened Nullable
  import opened Store
  import opened Http
  import opened App

  /** An unknown username on `/login`: the query returns no row, `rows[0]`
      raises, and the request crashes instead of being refused with 403. */
  lemma LoginUnknownUserCrashes(check: (string, string) -> bool)
    ensures var req := Request(Post, map["username" := "mallory", "password" := "pw"]);
            Login([], Cleared, req, check).outcome == Crash
  {
  }

  /** `/login` refusing an unknown username like a wrong password. */
  function LoginCorrected(users: Table, session: Session, req: Request, check: (string, string) -> bool): (r: Response)
    ensures !r.outcome.Crash?
    ensures r.users == users
    ensures !r.outcome.Redirect? ==> r.session == Cleared
    ensures r.outcome.Error? ==> r.outcome.code == 403
    ensures (req.verb == Post && HasCredentials(req) && !UsernameTaken(users, Username(req).value))
              ==> r.outcome == Error(BadCredentials, 403)
    ensures !Login(users, session, req, check).outcome.Crash? ==> r == Login(users, session, req, check)
    ensures r.outcome.Redirect? ==>
              && req.verb == Post && HasCredentials(req)
              && r.outcome.location == "/homepage"
              && exists i :: 0 <= i < |users| && users[i].username == Username(req).value
                             && check(users[i].hash, Password(req).value)
                             && r.session == Session(Some(users[i].id), None)
    ensures (WellFormed(users) && req.verb == Post && HasCredentials(req))
              ==> (r.outcome.Redirect? <==> CredentialsMatch(users, req, check))
  {
    var session := Cleared;
    var username := Username(req);
    var password := Password(req);
    if req.verb == Post then
      if !Truthy(username) then Response(Error(LoginNoUsername, 403), users, session)
      else if !Truthy(password) then Response(Error(LoginNoPassword, 403), users, session)
      else
        var rows := WithUsername(users, username.value);
        if |rows| == 0 || !check(rows[0].hash, password.value) then
          assert WellFormed(users) ==> !CredentialsMatch(users, req, check) by {
            if WellFormed(users) {
              forall i | 0 <= i < |users| && users[i].username == username.value
                ensures !check(users[i].hash, password.value)
              {
                UniqueUsernameSelect(users, i);
              }
            }
          }
          Response(Error(BadCredentials, 403), users, session)
        else
          assert rows[0] in rows;
          assert exists k :: 0 <= k < |users| && users[k] == rows[0];
          Response(Redirect("/homepage"), users, Session(Some(rows[0].id), None))
    else
      Response(Render(LoginPage), users, session)
  }

  /** A successful `create`: the UPDATE is committed, then subscripting the
      bound method `fetchall` raises, so the session never learns the
      household and the redirect is not reached. */
  lemma CreateCommitsThenCrashes()
    ensures var users := [User(1, "alice", "h", None)];
            var req := Request(Post, map["action" := "create", "household" := "Flatmates"]);
            var r := NoHousehold(users, Session(Some(1), None), req);
            && r.outcome == Crash
            && r.users == [User(1, "alice", "h", Some("Flatmates"))]
            && r.session.household == None
  {
  }

  /** `/no_household` with `fetchall()` called: after the UPDATE the user's
      household is read back into the session and the user is sent to
      `/household`. Reading it back still indexes an empty result, and so
      raises, when the session's user has no row. */
  function NoHouseholdCorrected(users: Table, session: Session, req: Request): (r: Response)
    ensures r.users == NoHousehold(users, session, req).users
    ensures !NoHousehold(users, session, req).outcome.Crash? ==> r == NoHousehold(users, session, req)
    ensures r.outcome.Crash? <==>
              NoHousehold(users, session, req).outcome.Crash? && (session.userId.None? || !HasUser(users, session.userId.value))
    ensures (req.verb == Post && ChoiceAccepted(users, req)
               && session.userId.Some? && HasUser(users, session.userId.value))
              ==> r.outcome == Redirect("/household") && r.session == session.(household := HouseholdName(req))
    ensures r.outcome.Redirect? ==>
              && r.outcome.location == "/household"
              && r.session == session.(household := HouseholdName(req))
              && HasUser(r.users, session.userId.value)
              && exists i :: 0 <= i < |r.users| && r.users[i].id == session.userId.value
                             && r.users[i].household == HouseholdName(req)
    ensures WellFormed(users) ==> WellFormed(r.users)
  {
    var user := session.userId;
    if req.verb == Post then
      var action := Action(req);
      var household := HouseholdName(req);
      if !Truthy(household) then Response(Error(NoHouseholdName, 400), users, session)
      else if action == Some("create") || action == Some("join") then
        var taken := |WithHousehold(users, household.value)| != 0;
        if action == Some("create") && taken then Response(Error(HouseholdTaken, 400), users, session)
        else if action == Some("join") && !taken then Response(Error(HouseholdUnknown, 400), users, session)
        else
          var users' := SetHousehold(users, user, household.value);
          var rows := WithId(users', user);
          if |rows| == 0 then Response(Crash, users', session)
          else
            assert rows[0] in users';
            Response(Redirect("/household"), users', session.(household := rows[0].household))
      else Response(Error(InvalidAction, 400), users, session)
    else
      Response(Render(NoHouseholdPage), users, session)
  }

  /** The forms of the walk-through: a registration, a login, and a choice
      on the household form. */
  function SignUp(name: string, password: string): Request {
    Request(Post, map["username" := name, "password" := password, "confirmation" := password])
  }

  function SignIn(name: string, password: string): Request {
    Request(Post, map["username" := name, "password" := password])
  }

  function Choose(action: string, household: string): Request {
    Request(Post, map["action" := action, "household" := household])
  }

  /** Registering a new name with a matching confirmation appends its row. */
  lemma SignUpAppends(users: Table, s: Session, name: string, password: string, generate: string -> string)
    requires name != "" && password != "" && !UsernameTaken(users, name)
    ensures Register(users, s, SignUp(name, password), generate)
            == Response(Redirect("/"), users + [User(NextRowId(users), name, generate(password), None)], s)
  {
  }

  /** Logging in as the holder of a row whose hash checks. */
  lemma SignInSucceeds(users: Table, s: Session, i: int, password: string, check: (string, string) -> bool)
    requires WellFormed(users) && 0 <= i < |users|
    requires users[i].username != "" && password != "" && check(users[i].hash, password)
    ensures LoginCorrected(users, s, SignIn(users[i].username, password), check)
            == Response(Redirect("/homepage"), users, Session(Some(users[i].id), None))
  {
  }

  /** A `create` of a new name, or a `join` of an existing one, by a user
      with a row: the row is updated and the session records the household. */
  lemma ChooseSucceeds(users: Table, s: Session, action: string, household: string)
    requires WellFormed(users) && s.userId.Some? && HasUser(users, s.userId.value)
    requires household != ""
    requires (action == "create" && !HouseholdExists(users, household))
             || (action == "join" && HouseholdExists(users, household))
    ensures NoHouseholdCorrected(users, s, Choose(action, household))
            == Response(Redirect("/household"), SetHousehold(users, s.userId, household),
                        s.(household := Some(household)))
  {
  }

  /** First half of the walk-through: alice registers, logs in, creates
      "Flatmates" and sees it on her home page. */
  lemma AliceCreatesFlatmates(generate: string -> string, check: (string, string) -> bool)
    requires forall p :: check(generate(p), p)
    ensures var alice := User(1, "alice", generate("pw1"), None);
            var alice' := alice.(household := Some("Flatmates"));
            && Register([], Cleared, SignUp("alice", "pw1"), generate)
               == Response(Redirect("/"), [alice], Cleared)
            && LoginCorrected([alice], Cleared, SignIn("alice", "pw1"), check)
               == Response(Redirect("/homepage"), [alice], Session(Some(1), None))
            && NoHouseholdCorrected([alice], Session(Some(1), None), Choose("create", "Flatmates"))
               == Response(Redirect("/household"), [alice'], Session(Some(1), Some("Flatmates")))
            && Home([alice'], Session(Some(1), Some("Flatmates")))
               == Response(Render(HouseholdPage("Flatmates", "alice")), [alice'], Session(Some(1), Some("Flatmates")))
  {
    var alice := User(1, "alice", generate("pw1"), None);
    var alice' := alice.(household := Some("Flatmates"));
    SignUpAppends([], Cleared, "alice", "pw1", generate);
    assert [] + [alice] == [alice];
    SignInSucceeds([alice], Cleared, 0, "pw1", check);
    assert HasUser([alice], 1);
    ChooseSucceeds([alice], Session(Some(1), None), "create", "Flatmates");
    assert SetHousehold([alice], Some(1), "Flatmates")[0] == alice';
    assert HasUser([alice'], 1);
  }

  /** Bob registers after alice and logs in. */
  lemma BobSignsUp(generate: string -> string, check: (string, string) -> bool)
    requires forall p :: check(generate(p), p)
    ensures var alice' := User(1, "alice", generate("pw1"), Some("Flatmates"));
            var bob := User(2, "bob", generate("pw2"), None);
            && Register([alice'], Cleared, SignUp("bob", "pw2"), generate)
               == Response(Redirect("/"), [alice', bob], Cleared)
            && LoginCorrected([alice', bob], Cleared, SignIn("bob", "pw2"), check)
               == Response(Redirect("/homepage"), [alice', bob], Session(Some(2), None))
  {
  }

  /** Bob joins "Flatmates"; joining "Ghost", which nobody created, is refused. */
  lemma BobJoinsFlatmates(alice': User, bob: User)
    requires alice' == User(1, "alice", alice'.hash, Some("Flatmates"))
    requires bob == User(2, "bob", bob.hash, None)
    ensures var bob' := bob.(household := Some("Flatmates"));
            && NoHouseholdCorrected([alice', bob], Session(Some(2), None), Choose("join", "Flatmates"))
               == Response(Redirect("/household"), [alice', bob'], Session(Some(2), Some("Flatmates")))
            && NoHouseholdCorrected([alice', bob'], Session(Some(2), Some("Flatmates")), Choose("join", "Ghost")).outcome
               == Error(HouseholdUnknown, 400)
  {
    var bob' := bob.(household := Some("Flatmates"));
    var before := [alice', bob];
    assert before[1].id == 2 && before[0].household == Some("Flatmates");
    assert HasUser([alice', bob], 2) && HouseholdExists([alice', bob], "Flatmates");
    ChooseSucceeds([alice', bob], Session(Some(2), None), "join", "Flatmates");
    var t := SetHousehold([alice', bob], Some(2), "Flatmates");
    assert t[0] == alice' && t[1] == bob';
    assert t == [alice', bob'];
    assert !HouseholdExists([alice', bob'], "Ghost");
    var req := Choose("join", "Ghost");
    assert Action(req) == Some("join") && HouseholdName(req) == Some("Ghost");
  }

  /** The intended use of the application, request by request: alice
      registers, logs in and creates "Flatmates"; her home page shows it; bob
      registers, logs in and joins it; joining a household nobody created is
      refused. Only the round trip of the password hash is assumed. */
  lemma HouseholdScenario(generate: string -> string, check: (string, string) -> bool)
    requires forall p :: check(generate(p), p)
    ensures
      var r1 := Register([], Cleared, SignUp("alice", "pw1"), generate);
      var l1 := LoginCorrected(r1.users, r1.session, SignIn("alice", "pw1"), check);
      var c1 := NoHouseholdCorrected(l1.users, l1.session, Choose("create", "Flatmates"));
      var h1 := Home(c1.users, c1.session);
      var r2 := Register(c1.users, Cleared, SignUp("bob", "pw2"), generate);
      var l2 := LoginCorrected(r2.users, r2.session, SignIn("bob", "pw2"), check);
      var j2 := NoHouseholdCorrected(l2.users, l2.session, Choose("join", "Flatmates"));
      var g2 := NoHouseholdCorrected(j2.users, j2.session, Choose("join", "Ghost"));
      && r1.outcome == Redirect("/")
      && l1.outcome == Redirect("/homepage")
      && c1.outcome == Redirect("/household") && c1.session.household == Some("Flatmates")
      && h1.outcome == Render(HouseholdPage("Flatmates", "alice"))
      && r2.outcome == Redirect("/")
      && l2.outcome == Redirect("/homepage")
      && j2.outcome == Redirect("/household") && j2.session.household == Some("Flatmates")
      && g2.outcome == Error(HouseholdUnknown, 400)
  {
    AliceCreatesFlatmates(generate, check);
    BobSignsUp(generate, check);
    BobJoinsFlatmates(User(1, "alice", generate("pw1"), Some("Flatmates")), User(2, "bob", generate("pw2"), None));
  }
}
