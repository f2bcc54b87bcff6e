/** The login form: two input fields, an error line and a loading flag,
    driven by the submit handler in three steps: begin (show progress, clear
    the error), the outcome of the login request, and the final clean-up
    that always turns progress off.

    The request itself is abstracted into `LoginOutcome`.
 */
module Login {
  import opened JsValues

  datatype LoginState = LoginState(
    username: string,
    password: string,
    errorMessage: string,
    loading: bool)

  /** The body of a login reply. An object body is inspected for `state`
      and `access_token`, and nothing is done with either. Any other body (the
      empty string an empty reply decodes to, `null`, a bare string) makes the
      `in` test throw a TypeError inside the handler's `try`. */
  datatype LoginBody =
    | NotAnObject
    | Fields(state: Option<string>, accessToken: Option<string>)

  /** What the login request came back with. The request rejects every
      status outside 2xx, so `Responded` only carries 2xx replies; a non-2xx
      reply is `Failed` with the `message` of its body, and an error with no
      response (network failure) is `Failed(None)`. */
  datatype LoginOutcome =
    | Responded(status: SuccessStatus, body: LoginBody)
    | Failed(serverMessage: Option<string>)

  /** The outcome the handler accepts without setting an error: status 200
      with an object body. */
  predicate Accepted(o: LoginOutcome) {
    o.Responded? && o.status == 200 && o.body.Fields?
  }

  const MsgInvalid: string := "Invalid username or password."
  const MsgFallback: string := "Something went wrong."
  const LabelIdle: string := "Login"
  const LabelBusy: string := "Logging in..."

  /** The state the form mounts with: empty fields, no error, not loading. */
  function Initial(): (s: LoginState)
    ensures s.username == "" && s.password == "" && s.errorMessage == ""
    ensures !s.loading
    ensures !ShowsError(s) && !ButtonDisabled(s) && ButtonLabel(s) == LabelIdle
  {
    LoginState("", "", "", false)
  }

  /** Typing in the username field replaces the username and nothing else. */
  function SetUsername(s: LoginState, value: string): (r: LoginState)
    ensures r.username == value
    ensures r.password == s.password && r.errorMessage == s.errorMessage && r.loading == s.loading
  {
    s.(username := value)
  }

  /** Typing in the password field replaces the password and nothing else. */
  function SetPassword(s: LoginState, value: string): (r: LoginState)
    ensures r.password == value
    ensures r.username == s.username && r.errorMessage == s.errorMessage && r.loading == s.loading
  {
    s.(password := value)
  }

  /** First step of a submission: progress on, any earlier error cleared. */
  function Begin(s: LoginState): (r: LoginState)
    ensures r.loading && r.errorMessage == ""
    ensures r.username == s.username && r.password == s.password
  {
    s.(loading := true, errorMessage := "")
  }

  /** The error a request outcome leaves; empty only for an accepted reply.
      A 200 reply whose body is not an object throws while it is inspected,
      and the thrown TypeError carries no response, so the fallback shows. */
  function OutcomeMessage(o: LoginOutcome): (m: string)
    ensures m == "" <==> Accepted(o)
    ensures o.Responded? && o.status != 200 ==> m == MsgInvalid
    ensures o.Responded? && o.status == 200 && o.body.NotAnObject? ==> m == MsgFallback
    ensures o.Failed? && TruthyString(o.serverMessage) ==> m == o.serverMessage.value
    ensures o.Failed? && !TruthyString(o.serverMessage) ==> m == MsgFallback
  {
    match o
    case Responded(status, body) =>
      if status != 200 then MsgInvalid
      else if body.NotAnObject? then OrElse(None, MsgFallback)
      else ""
    case Failed(message) => OrElse(message, MsgFallback)
  }

  /** Outcome and clean-up steps of a submission. An accepted reply leaves
      the error as it stood; any other outcome replaces it. Progress always
      ends. */
  function Finish(s: LoginState, o: LoginOutcome): (r: LoginState)
    ensures !r.loading
    ensures r.username == s.username && r.password == s.password
    ensures Accepted(o) ==> r.errorMessage == s.errorMessage
    ensures !Accepted(o) ==> r.errorMessage == OutcomeMessage(o) && r.errorMessage != ""
  {
    var afterOutcome := if Accepted(o) then s else s.(errorMessage := OutcomeMessage(o));
    afterOutcome.(loading := false)
  }

  /** A whole submission: begin, then the outcome and clean-up. */
  function Submit(s: LoginState, o: LoginOutcome): (r: LoginState)
    ensures !r.loading
    ensures r.username == s.username && r.password == s.password
    ensures r.errorMessage == OutcomeMessage(o)
  {
    Finish(Begin(s), o)
  }

  /** The error paragraph is rendered iff the error is non-empty. */
  predicate ShowsError(s: LoginState) {
    s.errorMessage != ""
  }

  /** The submit button is disabled exactly while a submission is in progress. */
  predicate ButtonDisabled(s: LoginState) {
    s.loading
  }

  /** The submit button's caption. */
  function ButtonLabel(s: LoginState): (caption: string)
    ensures caption == LabelBusy <==> s.loading
    ensures caption == LabelIdle <==> !s.loading
  {
    if s.loading then LabelBusy else LabelIdle
  }

  /** While the request is pending the button is disabled and says so, and
      no error is on screen, whatever was shown before. */
  lemma BeginShowsProgress(s: LoginState)
    ensures var r := Begin(s);
      ButtonDisabled(r) && ButtonLabel(r) == LabelBusy && !ShowsError(r)
  {
  }

  /** After any outcome the button is usable again and reads "Login". */
  lemma FinishReleasesButton(s: LoginState, o: LoginOutcome)
    ensures var r := Submit(s, o);
      !ButtonDisabled(r) && ButtonLabel(r) == LabelIdle
  {
  }

  /** An error is shown after a submission iff the reply was not accepted:
      not status 200, or status 200 with a body that is not an object. */
  lemma ErrorShownIffNotAccepted(s: LoginState, o: LoginOutcome)
    ensures ShowsError(Submit(s, o)) <==> !Accepted(o)
  {
  }

  /** Status 200 with an object body changes nothing but the loading flag:
      the body's fields, token included, are never stored in the form's
      state, so which fields it holds does not matter. */
  lemma SuccessStoresNothing(s: LoginState, state: Option<string>, token: Option<string>)
    ensures Submit(s, Responded(200, Fields(state, token))) == s.(errorMessage := "", loading := false)
    ensures forall other: LoginBody :: other.Fields? ==>
      Submit(s, Responded(200, other)) == Submit(s, Responded(200, Fields(state, token)))
  {
  }

  /** A 200 reply without an object body fails like an error without a
      response: the fallback message shows. */
  lemma NonObjectBodyFails(s: LoginState)
    ensures Submit(s, Responded(200, NotAnObject)) == Submit(s, Failed(None))
    ensures Submit(s, Responded(200, NotAnObject)).errorMessage == MsgFallback
  {
  }

  /** A submission forgets the previous error and loading flag: its result
      depends only on the fields typed and the outcome. */
  lemma SubmitForgetsPrevious(s: LoginState, o: LoginOutcome, error: string, loading: bool)
    ensures Submit(s.(errorMessage := error, loading := loading), o) == Submit(s, o)
  {
  }

  /** The failure messages, stated on concrete outcomes: a 2xx status other
      than 200, a rejected reply whose body has a message, one whose message
      is empty, and an error with no message at all. */
  lemma FailureMessages(s: LoginState)
    ensures Submit(s, Responded(204, NotAnObject)).errorMessage == MsgInvalid
    ensures Submit(s, Responded(201, Fields(None, None))).errorMessage == MsgInvalid
    ensures Submit(s, Failed(Some("User not found"))).errorMessage == "User not found"
    ensures Submit(s, Failed(Some(""))).errorMessage == MsgFallback
    ensures Submit(s, Failed(None)).errorMessage == MsgFallback
  {
  }
}
