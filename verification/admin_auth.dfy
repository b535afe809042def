/** AdminAuthController: the admin login form, the login decision and the
    session transitions of logging in and out. */
module AdminAuth {
  import opened Request
  import opened Validation
  import opened Responses
  import opened Session

  /** A row of the users table; its identifier is its position. */
  datatype User = User(name: string, email: string, passwordHash: string, isAdmin: bool)

  /** The table's unique index on `email`. */
  ghost predicate UniqueEmails(users: seq<User>) {
    forall i, j :: 0 <= i < j < |users| ==> users[i].email != users[j].email
  }

  /** `User::where('email', $email)->first()`: the first user with that email. */
  function FindByEmail(users: seq<User>, email: string): (found: Option<nat>)
    ensures found.Some? ==> found.value < |users| && users[found.value].email == email
    ensures found.Some? ==> forall j :: 0 <= j < found.value ==> users[j].email != email
    ensures found.None? ==> forall j :: 0 <= j < |users| ==> users[j].email != email
  {
    if users == [] then None
    else if users[0].email == email then Some(0)
    else match FindByEmail(users[1..], email)
      case None => None
      case Some(i) => Some(i + 1)
  }

  /** The signed-in user, looked up by the identifier the session holds. */
  function CurrentUser(userId: Option<nat>, users: seq<User>): (current: Option<User>)
    ensures current.Some? <==> userId.Some? && userId.value < |users|
  {
    if userId.Some? && userId.value < |users| then Some(users[userId.value]) else None
  }

  /** showLogin: an authenticated admin is sent to the dashboard; everyone else sees the form. */
  function ShowLogin(current: Option<User>): (r: WebResponse)
    ensures r == Redirect(Route("admin"), map[], map[], map[]) <==> current.Some? && current.value.isAdmin
    ensures r != Redirect(Route("admin"), map[], map[], map[]) ==> r == Render("admin-login")
  {
    if current.Some? && current.value.isAdmin then Redirect(Route("admin"), map[], map[], map[])
    else Render("admin-login")
  }

  /** The rules `login` validates its input with. */
  const LoginRules: RuleSet := map["email" := [Required, IsString], "password" := [Required, IsString]]

  /** The login rules pass exactly when both fields are non-blank strings. */
  lemma LoginRulesMeaning(oracles: Oracles, input: Input)
    ensures Validate(oracles, LoginRules, input) == map[] <==> FilledText(input, "email") && FilledText(input, "password")
  {
    var rules := [Required, IsString];
    assert LoginRules.Keys == {"email", "password"};
    assert IsString in rules && Required in rules;
    var errors := Validate(oracles, LoginRules, input);
    if FilledText(input, "email") && FilledText(input, "password") {
      assert errors.Keys == {};
    } else if !FilledText(input, "email") {
      assert "email" in errors;
    } else {
      assert "password" in errors;
    }
  }

  datatype LoginOutcome = InvalidInput(errors: Failures) | Accepted(uid: nat) | Rejected

  /** The login decision: the input must pass its rules before any lookup; then
      the user with that email must exist, be an admin and match the password.
      `check` is the password-hash comparison. */
  function LoginDecision(oracles: Oracles, users: seq<User>, check: (string, string) -> bool, input: Input): (o: LoginOutcome)
    ensures o.InvalidInput? <==> !(FilledText(input, "email") && FilledText(input, "password"))
    ensures o.Accepted? ==>
      && o.uid < |users| && users[o.uid].isAdmin && users[o.uid].email == input["email"].s
      && check(input["password"].s, users[o.uid].passwordHash)
  {
    LoginRulesMeaning(oracles, input);
    var errors := Validate(oracles, LoginRules, input);
    if errors != map[] then InvalidInput(errors)
    else
      match FindByEmail(users, input["email"].s)
      case None => Rejected
      case Some(i) =>
        if users[i].isAdmin && check(input["password"].s, users[i].passwordHash) then Accepted(i) else Rejected
  }

  /** With unique emails, login accepts exactly a known admin whose password matches. */
  lemma LoginAcceptsOnlyAdmins(oracles: Oracles, users: seq<User>, check: (string, string) -> bool, input: Input)
    requires UniqueEmails(users)
    requires FilledText(input, "email") && FilledText(input, "password")
    ensures LoginDecision(oracles, users, check, input).Accepted? <==>
      exists i :: 0 <= i < |users| && users[i].email == input["email"].s
        && users[i].isAdmin && check(input["password"].s, users[i].passwordHash)
  {
  }

  /** An unknown email, a user who is not an admin and a wrong password are all
      answered by the same rejection. */
  lemma EveryFailedCheckRejects(oracles: Oracles, users: seq<User>, check: (string, string) -> bool, input: Input)
    requires UniqueEmails(users)
    requires FilledText(input, "email") && FilledText(input, "password")
    ensures (forall i :: 0 <= i < |users| ==> users[i].email != input["email"].s) ==>
      LoginDecision(oracles, users, check, input) == Rejected
    ensures (forall i :: 0 <= i < |users| && users[i].email == input["email"].s ==> !users[i].isAdmin) ==>
      LoginDecision(oracles, users, check, input) == Rejected
    ensures (forall i :: 0 <= i < |users| && users[i].email == input["email"].s ==>
        !check(input["password"].s, users[i].passwordHash)) ==>
      LoginDecision(oracles, users, check, input) == Rejected
  {
  }

  const BadCredentials := "The provided credentials do not match our records or you are not an admin."

  /** Input keys a failed validation never flashes back. */
  const DontFlash: set<string> := {"current_password", "password", "password_confirmation"}

  /** The response to a login attempt. */
  function LoginResponse(users: seq<User>, outcome: LoginOutcome, input: Input): (r: WebResponse)
    requires outcome.Accepted? ==> outcome.uid < |users|
    ensures r.Redirect? && "password" !in r.oldInput
    ensures outcome.Rejected? ==> r.target == Back && r.errors == map["email" := [Text(BadCredentials)]]
    ensures outcome.Rejected? ==> r.oldInput.Keys <= {"email"}
  {
    match outcome
    case InvalidInput(errors) => Redirect(Back, map[], Messages(errors), input - DontFlash)
    case Rejected =>
      Redirect(Back, map[], map["email" := [Text(BadCredentials)]],
        if "email" in input then map["email" := input["email"]] else map[])
    case Accepted(uid) =>
      RedirectFlashing(Route("admin"), "success", "Welcome back, " + users[uid].name + "!")
  }

  /** A rejection tells nothing about which check failed: any two rejected
      attempts with the same email get the same response. */
  lemma RejectionsIndistinguishable(users1: seq<User>, users2: seq<User>, input1: Input, input2: Input)
    requires Get(input1, "email") == Get(input2, "email")
    ensures LoginResponse(users1, Rejected, input1) == LoginResponse(users2, Rejected, input2)
  {
  }

  /** login: on acceptance the user is signed in, and the session gets a new
      identifier and CSRF token; otherwise the session is left as it was. */
  method Login(session: Session, oracles: Oracles, users: seq<User>, check: (string, string) -> bool, input: Input)
    returns (r: WebResponse)
    requires session.Valid()
    modifies session
    ensures session.Valid()
    ensures r == LoginResponse(users, LoginDecision(oracles, users, check, input), input)
    ensures LoginDecision(oracles, users, check, input).Accepted? ==>
      && session.userId == Some(LoginDecision(oracles, users, check, input).uid)
      && session.id >= old(session.nextSecret) && session.id != old(session.id)
      && session.token.Some? && session.token.value >= old(session.nextSecret)
    ensures !LoginDecision(oracles, users, check, input).Accepted? ==>
      session.userId == old(session.userId) && session.id == old(session.id) && session.token == old(session.token)
  {
    var outcome := LoginDecision(oracles, users, check, input);
    if outcome.Accepted? {
      // Auth::login stores the user and migrates the session; regenerate()
      // migrates it again and issues a new CSRF token.
      session.userId := Some(outcome.uid);
      session.Migrate();
      session.Migrate();
      session.RegenerateToken();
    }
    r := LoginResponse(users, outcome, input);
  }

  const LoggedOut := "You have been logged out successfully."

  /** logout: no user is signed in, the session is emptied under a new
      identifier, and a new CSRF token is issued. */
  method Logout(session: Session) returns (r: WebResponse)
    requires session.Valid()
    modifies session
    ensures session.Valid()
    ensures session.userId == None
    ensures session.id >= old(session.nextSecret) && session.id != old(session.id)
    ensures session.token.Some? && session.token.value >= old(session.nextSecret)
    ensures r == RedirectFlashing(Route("admin.login"), "success", LoggedOut)
  {
    session.userId := None;
    session.Flush();
    session.Migrate();
    session.RegenerateToken();
    r := RedirectFlashing(Route("admin.login"), "success", LoggedOut);
  }
}
