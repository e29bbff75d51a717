/** Properties of the handlers that relate more than one request. */
module Properties {
  import opened Nullable
  import opened Store
  import opened Http
  import opened App

  /** Logging out gives the same response whatever the session was, so a
      second logout repeats the first. */
  lemma LogoutIdempotent(users: Table, s: Session, s': Session)
    ensures Logout(users, s) == Logout(users, s')
    ensures Logout(Logout(users, s).users, Logout(users, s).session) == Logout(users, s)
  {
  }

  /** Once a username is registered, registering it again is refused as a
      duplicate, whatever the password fields of the second form. */
  lemma RegisterTwiceConflicts(users: Table, s: Session, first: Request, second: Request,
                               generate: string -> string, generate': string -> string)
    requires Register(users, s, first, generate).outcome.Redirect?
    requires second.verb == Post && Username(second) == Username(first)
    ensures var r := Register(users, s, first, generate);
            Register(r.users, r.session, second, generate').outcome == Error(UsernameExists, 400)
  {
  }

  /** A user who has just registered can log in with the same username and
      password, provided the hash checks against the password it was made
      from; the session then holds the new row's id. */
  lemma RegisterThenLogin(users: Table, s: Session, reg: Request, login: Request,
                          generate: string -> string, check: (string, string) -> bool)
    requires forall p :: check(generate(p), p)
    requires WellFormed(users)
    requires Register(users, s, reg, generate).outcome.Redirect?
    requires login.verb == Post && Username(login) == Username(reg) && Password(login) == Password(reg)
    ensures var r := Register(users, s, reg, generate);
            var l := Login(r.users, r.session, login, check);
            l.outcome == Redirect("/homepage") && l.session == Session(Some(r.users[|users|].id), None)
  {
  }

  /** A successful `create` by a user present in the table leaves that user
      as the only member of the new household. */
  lemma CreateLeavesSoleMember(users: Table, s: Session, req: Request)
    requires WellFormed(users)
    requires s.userId.Some? && HasUser(users, s.userId.value)
    requires req.verb == Post && Truthy(HouseholdName(req)) && Action(req) == Some("create")
    requires !HouseholdExists(users, HouseholdName(req).value)
    ensures var r := NoHousehold(users, s, req);
            && r.outcome == Crash
            && |r.users| == |users|
            && forall i :: 0 <= i < |r.users| ==>
                 (r.users[i].household == HouseholdName(req) <==> r.users[i].id == s.userId.value)
  {
  }

  /** Household names are unique at creation: after one user has created a
      household, a `create` of the same name by anyone is refused. */
  lemma CreateTwiceConflicts(users: Table, s: Session, s': Session, req: Request, req': Request)
    requires s.userId.Some? && HasUser(users, s.userId.value)
    requires req.verb == Post && Truthy(HouseholdName(req)) && Action(req) == Some("create")
    requires !HouseholdExists(users, HouseholdName(req).value)
    requires req'.verb == Post && Action(req') == Some("create") && HouseholdName(req') == HouseholdName(req)
    ensures NoHousehold(NoHousehold(users, s, req).users, s', req').outcome == Error(HouseholdTaken, 400)
  {
  }

  /** The overwrite is unconditional: a member of one household can create
      another, and the first household then no longer exists. */
  lemma SwitchingCanEmptyHousehold()
    ensures var users := [User(1, "alice", "h", Some("Attic"))];
            var req := Request(Post, map["action" := "create", "household" := "Basement"]);
            var r := NoHousehold(users, Session(Some(1), Some("Attic")), req);
            && HouseholdExists(users, "Attic")
            && r.outcome == Crash
            && r.users == [User(1, "alice", "h", Some("Basement"))]
            && !HouseholdExists(r.users, "Attic")
  {
  }

  /** Without a logged-in user the UPDATE matches no row: `/no_household`
      never changes the table. */
  lemma NoUserNoChange(users: Table, req: Request, h: Option<string>)
    ensures NoHousehold(users, Session(None, h), req).users == users
  {
  }

  /** Although a create or join raises after its UPDATE, the next visit to
      `/homepage` reads the committed household and shows it. */
  lemma HomeAfterCrashedJoin(users: Table, s: Session, req: Request)
    requires WellFormed(users)
    requires s.userId.Some? && HasUser(users, s.userId.value)
    requires req.verb == Post && Truthy(HouseholdName(req))
    requires || (Action(req) == Some("create") && !HouseholdExists(users, HouseholdName(req).value))
             || (Action(req) == Some("join") && HouseholdExists(users, HouseholdName(req).value))
    ensures var r := NoHousehold(users, s, req);
            var home := Home(r.users, r.session);
            && home.session.household == HouseholdName(req)
            && home.outcome.Render? && home.outcome.view.HouseholdPage?
            && home.outcome.view.household == HouseholdName(req).value
  {
  }
}
