/** The browser routes: the public pages, the donation form's submission, the
    admin login pages and the admin dashboard behind the `admin` middleware. */
module WebRoutes {
  import opened Request
  import opened Validation
  import opened Responses
  import opened DonationModel
  import opened DonationController
  import opened AdminAuth
  import opened IsAdmin

  /** The GET routes. */
  datatype Page = Home | DonateForm | AdminLogin | AdminDashboard

  /** Only the dashboard sits in the `admin` middleware group. */
  predicate UsesAdminMiddleware(page: Page) {
    page == AdminDashboard
  }

  /** The response to a GET request for `page` from the signed-in user `current`. */
  function HandleGet(page: Page, current: Option<User>): (r: WebResponse)
    ensures page == Home ==> r == Render("welcome")
    ensures page == DonateForm ==> r == Render("donate")
    ensures !UsesAdminMiddleware(page) ==> r.Render? || r.target == Route("admin")
  {
    match page
    case Home => Render("welcome")
    case DonateForm => Render("donate")
    case AdminLogin => ShowLogin(current)
    case AdminDashboard => Handle(current, Render("admin"))
  }

  /** The dashboard is rendered exactly for an authenticated admin. */
  lemma DashboardOnlyForAdmins(current: Option<User>)
    ensures HandleGet(AdminDashboard, current) == Render("admin") <==> current.Some? && current.value.isAdmin
  {
  }

  /** The GET route a redirect target names, if any. */
  function PageAt(target: Target): Option<Page> {
    match target
    case Route(name) =>
      if name == "home" then Some(Home)
      else if name == "donate" then Some(DonateForm)
      else if name == "admin.login" then Some(AdminLogin)
      else if name == "admin" then Some(AdminDashboard)
      else None
    case Path(path) =>
      if path == "/" then Some(Home)
      else if path == "/donate" then Some(DonateForm)
      else if path == "/admin/login" then Some(AdminLogin)
      else if path == "/admin" then Some(AdminDashboard)
      else None
    case Back => None
  }

  /** No redirect loop between the middleware and the login form: a redirect
      answered to a GET request names a GET route, and that route renders a
      page for the same user. */
  lemma RedirectsSettleInOneHop(page: Page, current: Option<User>)
    ensures HandleGet(page, current).Redirect? ==>
      && PageAt(HandleGet(page, current).target).Some?
      && HandleGet(PageAt(HandleGet(page, current).target).value, current).Render?
  {
  }

  /** An accepted login leads to the dashboard, which then renders. */
  lemma AcceptedLoginOpensDashboard(oracles: Oracles, users: seq<User>, check: (string, string) -> bool, input: Input)
    requires LoginDecision(oracles, users, check, input).Accepted?
    ensures LoginResponse(users, LoginDecision(oracles, users, check, input), input).target == Route("admin")
    ensures HandleGet(AdminDashboard, CurrentUser(Some(LoginDecision(oracles, users, check, input).uid), users)) == Render("admin")
  {
  }

  /** After logout the dashboard sends the browser to the login form. */
  lemma LoggedOutIsSentToLogin(users: seq<User>)
    ensures HandleGet(AdminDashboard, CurrentUser(None, users)).target == Route("admin.login")
    ensures HandleGet(AdminLogin, CurrentUser(None, users)) == Render("admin-login")
  {
  }

  const ThankYou := "Thank you for your donation!"

  /** POST /donate: the donation rules; on failure back to the form with the
      errors and all of the input, nothing stored; on success one row stored
      and back to the form with a thank-you flash. */
  method PostDonate(table: DonationTable, oracles: Oracles, input: Input, now: int) returns (r: WebResponse)
    requires table.Valid()
    modifies table
    ensures table.Valid()
    ensures var errors := Validate(oracles, DonationRules, input);
      if errors == map[] then
        && r == RedirectFlashing(Back, "success", ThankYou)
        && table.rows == old(table.rows) + [Donation(old(table.nextId), now, Fillable(input))]
        && table.nextId == old(table.nextId) + 1
      else
        && r == Redirect(Back, map[], Messages(errors), input)
        && table.rows == old(table.rows) && table.nextId == old(table.nextId)
    ensures r.Redirect? && ("success" in r.flash <==> AcceptableDonation(oracles, input))
  {
    var errors := Validate(oracles, DonationRules, input);
    DonationRulesMeaning(oracles, input);
    if errors != map[] {
      return Redirect(Back, map[], Messages(errors), input);
    }
    var _ := table.Create(input, now);
    r := RedirectFlashing(Back, "success", ThankYou);
  }
}
