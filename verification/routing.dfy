/**
 * Role-gated routing: the application shell's session and role state, its
 * route table, the sign-in page (empty-field guard, sign-up role, post-login
 * redirect, mode toggle) and the products page's admin-only add control.
 */
module Routing {
  import opened Common
  import opened Appointments

  /** What the router renders at a path. */
  datatype Element = Blank | Page(path: Path) | Redirect(to: Path)

  /** The shell's role: `metadata.role || null`. */
  function MetaRole(u: User): (r: Option<string>)
    ensures r.Some? <==> Truthy(u.role)
    ensures r.Some? ==> r == u.role
  {
    if Truthy(u.role) then u.role else None
  }

  datatype AppState = AppState(loading: bool, session: Option<User>, role: Option<string>)

  const InitialApp := AppState(true, None, None)

  /** The answer to the initial session check; routing starts only after it. */
  function SessionChecked(s: AppState, session: Option<User>): (r: AppState)
    ensures !r.loading && r.session == session
    ensures session.Some? ==> r.role == MetaRole(session.value)
    ensures session.None? ==> r.role == s.role
  {
    AppState(false, session, if session.Some? then MetaRole(session.value) else s.role)
  }

  /** An auth-state change: signing out clears the role. */
  function AuthChanged(s: AppState, session: Option<User>): (r: AppState)
    ensures r.loading == s.loading && r.session == session
    ensures session.None? ==> r.role == None
    ensures session.Some? ==> r.role == MetaRole(session.value)
  {
    s.(session := session, role := if session.Some? then MetaRole(session.value) else None)
  }

  /** Paths that need a session and nothing else. */
  predicate SessionOnly(p: Path) {
    p == ProfilePage || p == CartPage || p == PrescriptionPage || p == BookAppointmentPage || p == AppointmentsPage
  }

  /**
   * The route table: nothing before the session check; afterwards a path
   * renders its own page or redirects elsewhere, and a visitor without a
   * session is only ever redirected to the sign-in page.
   */
  function Route(s: AppState, p: Path): (e: Element)
    ensures s.loading <==> e == Blank
    ensures e.Page? ==> e.path == p
    ensures e.Redirect? ==> e.to != p
    ensures s.session.None? && e.Redirect? ==> e.to == AuthPage
    ensures !s.loading && s.session.Some? ==> e != Redirect(AuthPage)
  {
    if s.loading then Blank
    else
      match p
      case AuthPage =>
        if s.session.None? then Page(AuthPage)
        else if s.role == Some("doctor") then Redirect(DoctorDashboardPage)
        else if s.role == Some("admin") then Redirect(AdminDashboardPage)
        else Redirect(Home)
      case Home => Page(Home)
      case ProductsPage => Page(ProductsPage)
      case DoctorDashboardPage =>
        if s.session.Some? && s.role == Some("doctor") then Page(DoctorDashboardPage)
        else if s.session.Some? then Redirect(Home) else Redirect(AuthPage)
      case AdminDashboardPage =>
        if s.session.Some? && s.role == Some("admin") then Page(AdminDashboardPage)
        else if s.session.Some? then Redirect(Home) else Redirect(AuthPage)
      case _ =>
        if s.session.Some? then Page(p) else Redirect(AuthPage)
  }

  /** Nothing is rendered before the session check; the two public pages always render after it. */
  lemma RouteBeforeAndAfterCheck(s: AppState, p: Path)
    ensures s.loading ==> Route(s, p) == Blank
    ensures !s.loading && (p == Home || p == ProductsPage) ==> Route(s, p) == Page(p)
  {
  }

  /** The session-only pages render exactly with a session, for every role. */
  lemma SessionOnlyRoutes(s: AppState, p: Path, role: Option<string>)
    requires !s.loading && SessionOnly(p)
    ensures Route(s, p) == Page(p) <==> s.session.Some?
    ensures s.session.None? ==> Route(s, p) == Redirect(AuthPage)
    ensures Route(s.(role := role), p) == Route(s, p)
  {
  }

  /** The dashboards render only for the matching role; a session with another role goes home. */
  lemma DashboardRoutes(s: AppState)
    requires !s.loading
    ensures Route(s, DoctorDashboardPage) == Page(DoctorDashboardPage) <==> s.session.Some? && s.role == Some("doctor")
    ensures Route(s, AdminDashboardPage) == Page(AdminDashboardPage) <==> s.session.Some? && s.role == Some("admin")
    ensures s.session.None? ==> Route(s, DoctorDashboardPage) == Redirect(AuthPage) && Route(s, AdminDashboardPage) == Redirect(AuthPage)
    ensures s.session.Some? && s.role != Some("doctor") ==> Route(s, DoctorDashboardPage) == Redirect(Home)
    ensures s.session.Some? && s.role != Some("admin") ==> Route(s, AdminDashboardPage) == Redirect(Home)
  {
  }

  /** A user signed out by an auth change is sent to the sign-in page from every protected path. */
  lemma SignOutLocksProtectedRoutes(s: AppState, p: Path)
    requires !s.loading
    requires p != Home && p != ProductsPage && p != AuthPage
    ensures Route(AuthChanged(s, None), p) == Redirect(AuthPage)
  {
  }

  // ---------------------------------------------------------------------
  // The sign-in page
  // ---------------------------------------------------------------------

  datatype AuthForm = AuthForm(isSignUp: bool, email: string, password: string, selectedRole: string)

  const InitialAuthForm := AuthForm(false, "", "", "patient")

  datatype AuthCall = NoCall | SignUpCall(email: string, password: string, role: string) | SignInCall(email: string, password: string)

  /** The backend call a submit makes: none when a field is empty; sign-up carries the selected role. */
  function AuthCallFor(f: AuthForm): (c: AuthCall)
    ensures c == NoCall <==> f.email == "" || f.password == ""
    ensures c.SignUpCall? <==> f.email != "" && f.password != "" && f.isSignUp
    ensures c.SignUpCall? ==> c == SignUpCall(f.email, f.password, f.selectedRole)
    ensures c.SignInCall? ==> c == SignInCall(f.email, f.password) && !f.isSignUp
  {
    if f.email == "" || f.password == "" then NoCall
    else if f.isSignUp then SignUpCall(f.email, f.password, f.selectedRole)
    else SignInCall(f.email, f.password)
  }

  /** An untouched sign-up form registers a patient. */
  lemma DefaultSignUpRoleIsPatient(email: string, password: string)
    requires email != "" && password != ""
    ensures AuthCallFor(InitialAuthForm.(isSignUp := true, email := email, password := password)).role == "patient"
  {
  }

  /** Where the sign-in page sends a signed-in user. */
  function PostLoginTarget(role: Option<string>): Path {
    if role == Some("doctor") then DoctorDashboardPage
    else if role == Some("admin") then ProductsPage
    else Home
  }

  datatype AuthReply = AuthFailed | SignedUp | SignedIn(user: User)

  /** Only a successful sign-in navigates; a sign-up waits for e-mail confirmation. */
  function AuthNavigation(c: AuthCall, reply: AuthReply): (r: Option<Path>)
    ensures r.Some? <==> c.SignInCall? && reply.SignedIn?
    ensures r.Some? ==> r.value == PostLoginTarget(reply.user.role)
  {
    if c.SignInCall? && reply.SignedIn? then Some(PostLoginTarget(reply.user.role)) else None
  }

  /** The page's own check on load: an existing session is redirected by the same rule. */
  function AuthOnLoad(session: Option<User>): (r: Option<Path>)
    ensures r.Some? <==> session.Some?
    ensures r.Some? ==> r.value == PostLoginTarget(session.value.role)
  {
    if session.Some? then Some(PostLoginTarget(session.value.role)) else None
  }

  /** Switching between sign-in and sign-up clears both fields and keeps the selected role. */
  function ToggleMode(f: AuthForm): (r: AuthForm)
    ensures r.isSignUp == !f.isSignUp
    ensures r.email == "" && r.password == "" && r.selectedRole == f.selectedRole
    ensures AuthCallFor(r) == NoCall
  {
    AuthForm(!f.isSignUp, "", "", f.selectedRole)
  }

  /**
   * The sign-in page and the shell's `/auth` route send a signed-in user to
   * the same place, except an administrator: the page picks the products
   * page, the route the admin dashboard.
   */
  lemma AuthPageAndRouteDisagreeOnlyForAdmin(u: User)
    ensures var s := SessionChecked(InitialApp, Some(u));
      (Route(s, AuthPage) == Redirect(PostLoginTarget(u.role)) <==> u.role != Some("admin"))
    ensures u.role == Some("admin") ==>
      PostLoginTarget(u.role) == ProductsPage && Route(SessionChecked(InitialApp, Some(u)), AuthPage) == Redirect(AdminDashboardPage)
  {
  }

  // ---------------------------------------------------------------------
  // The products page
  // ---------------------------------------------------------------------

  datatype ProductsState = ProductsState(isAdmin: bool, showAddForm: bool)

  const InitialProducts := ProductsState(false, false)

  datatype ProductsLoad = ProductsLoad(state: ProductsState, navigate: Option<Path>)

  /** The admin check on load: only a role of exactly "admin" counts; no session goes to sign-in. */
  function ProductsOnLoad(s: ProductsState, session: Option<User>): (r: ProductsLoad)
    ensures session.None? ==> r == ProductsLoad(s, Some(AuthPage))
    ensures session.Some? ==> r.navigate.None? && r.state.showAddForm == s.showAddForm
    ensures session.Some? ==> (r.state.isAdmin <==> session.value.role == Some("admin"))
  {
    match session
    case None => ProductsLoad(s, Some(AuthPage))
    case Some(u) => ProductsLoad(s.(isAdmin := u.role == Some("admin")), None)
  }

  /** The "Add Product" button exists only for an admin, and toggles the form. */
  function ClickAddProduct(s: ProductsState): (r: ProductsState)
    ensures r.isAdmin == s.isAdmin
    ensures s.isAdmin ==> r.showAddForm == !s.showAddForm
    ensures !s.isAdmin ==> r == s
  {
    if s.isAdmin then s.(showAddForm := !s.showAddForm) else s
  }

  predicate AddFormVisible(s: ProductsState) {
    s.isAdmin && s.showAddForm
  }

  /** A non-admin never sees the form, whatever happened before the load. */
  lemma AddFormOnlyForAdmins(s: ProductsState, u: User)
    requires u.role != Some("admin")
    ensures !AddFormVisible(ProductsOnLoad(s, Some(u)).state)
    ensures !AddFormVisible(ClickAddProduct(ProductsOnLoad(s, Some(u)).state))
  {
  }

  /** Two clicks by an admin restore the form's visibility. */
  lemma AddFormToggleTwiceIsIdentity(s: ProductsState)
    ensures ClickAddProduct(ClickAddProduct(s)) == s
  {
  }
}
