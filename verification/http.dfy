/** The request, session and response vocabulary the Flask handlers work in. */
module Http {
  import opened Nullable
  import opened Store

  datatype Method = Get | Post

  /** `request.form`: submitted field names to their values. */
  type Form = map<string, string>

  datatype Request = Request(verb: Method, form: Form)

  /** `request.form.get(key)` for a field submitted at most once: the value,
      or `None` when the field is absent. */
  function Field(form: Form, key: string): (v: Option<string>)
    ensures v.Some? <==> key in form
    ensures v.Some? ==> v.value == form[key]
  {
    if key in form then Some(form[key]) else None
  }

  /** The server-side session: the logged-in user's id and the cached name of
      their household. A `household` key holding Python `None` and an absent
      key are both `None` here. */
  datatype Session = Session(userId: Option<int>, household: Option<string>)

  /** The session after `session.clear()`. */
  const Cleared := Session(None, None)

  /** The templates a handler can render; only the household page receives data. */
  datatype View =
    | IndexPage
    | RegisterPage
    | LoginPage
    | HouseholdPage(household: string, username: string)
    | NoHouseholdPage

  /** What the handler returns: a rendered template, a redirect, an error page
      with its HTTP status (the `error` helper), or an exception escaping the
      handler. */
  datatype Outcome =
    | Render(view: View)
    | Redirect(location: string)
    | Error(message: string, code: int)
    | Crash

  /** The outcome together with the users table and the session as the handler
      leaves them. On `Crash` the table holds every statement already committed
      and the session is the request's session object at the point of the raise. */
  datatype Response = Response(outcome: Outcome, users: Table, session: Session)
}
