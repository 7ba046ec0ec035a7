/**
 * The navigation bar: its own session and role state (a missing role reads
 * as "patient"), the role's link list, the sign-out reset, and the cart
 * badge, which counts the user's cart rows.
 */
module Navbar {
  import opened Common
  import opened Appointments
  import opened Cart
  import Routing

  datatype Link = Link(text: string, path: Path)

  const CommonLinks: seq<Link> := [Link("Home", Home), Link("Products", ProductsPage)]

  /** The navbar's role: `metadata.role || "patient"`. */
  function NavRole(u: User): (r: string)
    ensures r != ""
    ensures Truthy(u.role) ==> r == u.role.value
    ensures !Truthy(u.role) ==> r == "patient"
  {
    if Truthy(u.role) then u.role.value else "patient"
  }

  datatype NavState = NavState(session: Option<User>, role: Option<string>, cartCount: nat)

  const InitialNav := NavState(None, None, 0)

  /**
   * The head-only cart count `.eq('user_id', uid)` over the cart table:
   * None when it fails, which leaves the previous count.
   */
  function CartCount(store: Option<seq<CartRow>>, uid: Id, previous: nat): (n: nat)
    ensures store.None? ==> n == previous
    ensures store.Some? ==> n == |UserRows(store.value, uid)|
  {
    if store.Some? then |UserRows(store.value, uid)| else previous
  }

  /** A session answer, initial or from an auth change, for a signed-in user. */
  function SignedIn(s: NavState, u: User, cart: Option<seq<CartRow>>): (r: NavState)
    ensures r.session == Some(u) && r.role == Some(NavRole(u))
    ensures r.cartCount == CartCount(cart, u.id, s.cartCount)
  {
    NavState(Some(u), Some(NavRole(u)), CartCount(cart, u.id, s.cartCount))
  }

  /** The initial session check: without a session, role and count are left alone. */
  function NavSessionChecked(s: NavState, session: Option<User>, cart: Option<seq<CartRow>>): (r: NavState)
    ensures session.Some? ==> r == SignedIn(s, session.value, cart)
    ensures session.None? ==> r == s.(session := None)
  {
    if session.Some? then SignedIn(s, session.value, cart) else s.(session := None)
  }

  /** An auth-state change: signing out clears the role and zeroes the cart count. */
  function NavAuthChanged(s: NavState, session: Option<User>, cart: Option<seq<CartRow>>): (r: NavState)
    ensures session.Some? ==> r == SignedIn(s, session.value, cart)
    ensures session.None? ==> r == NavState(None, None, 0)
  {
    if session.Some? then SignedIn(s, session.value, cart) else NavState(None, None, 0)
  }

  /** `getNavigationLinks`. */
  function NavigationLinks(s: NavState): (r: seq<Link>)
    ensures |r| >= 2 && r[..2] == CommonLinks
    ensures s.session.None? ==> r == CommonLinks
  {
    if s.session.None? then CommonLinks
    else if s.role == Some("doctor") then CommonLinks + [Link("Dashboard", DoctorDashboardPage), Link("Profile", ProfilePage)]
    else if s.role == Some("admin") then CommonLinks + [Link("Admin Dashboard", AdminDashboardPage), Link("Profile", ProfilePage)]
    else CommonLinks + [Link("Appointments", AppointmentsPage), Link("Book Appointment", BookAppointmentPage),
                        Link("Prescription", PrescriptionPage), Link("Profile", ProfilePage)]
  }

  /** The links of a signed-in user, by role: doctors and admins get a dashboard, everyone else the patient pages. */
  lemma LinksByRole(s: NavState)
    requires s.session.Some?
    ensures s.role == Some("doctor") ==> NavigationLinks(s)[2..] == [Link("Dashboard", DoctorDashboardPage), Link("Profile", ProfilePage)]
    ensures s.role == Some("admin") ==> NavigationLinks(s)[2..] == [Link("Admin Dashboard", AdminDashboardPage), Link("Profile", ProfilePage)]
    ensures s.role != Some("doctor") && s.role != Some("admin") ==>
      |NavigationLinks(s)| == 6 && NavigationLinks(s)[2].path == AppointmentsPage && NavigationLinks(s)[5].path == ProfilePage
  {
  }

  /** The cart badge: shown with the count only for a session and a positive count. */
  function CartBadge(s: NavState): (b: Option<nat>)
    ensures b.Some? <==> s.session.Some? && s.cartCount > 0
    ensures b.Some? ==> b.value == s.cartCount
  {
    if s.session.Some? && s.cartCount > 0 then Some(s.cartCount) else None
  }

  /** The badge counts rows, not units: one row of quantity five shows 1. */
  lemma BadgeCountsRowsNotQuantities(s: NavState, u: User, row: CartRow)
    requires row.userId == u.id && row.quantity == 5
    ensures CartBadge(SignedIn(s, u, Some([row]))) == Some(1)
  {
    assert UserRows([row], u.id) == [row];
  }

  /** After signing out there are only the two public links and no badge. */
  lemma SignOutResets(s: NavState, cart: Option<seq<CartRow>>)
    ensures NavigationLinks(NavAuthChanged(s, None, cart)) == CommonLinks
    ensures CartBadge(NavAuthChanged(s, None, cart)).None?
  {
  }

  /**
   * The navbar and the shell default a missing role differently ("patient"
   * against null), but both send such a user down the same branch.
   */
  lemma RoleDefaultsAgreeOnBranch(u: User)
    ensures !Truthy(u.role) ==> NavRole(u) == "patient" && Routing.MetaRole(u) == None
    ensures RoleBranch(Some(NavRole(u))) == RoleBranch(Routing.MetaRole(u))
  {
  }

  /**
   * Every link the navbar offers a user is a page the shell renders for the
   * same user: no link leads to a redirect.
   */
  lemma {:induction false} EveryLinkRenders(nav: NavState, app: Routing.AppState, u: Option<User>, cart: Option<seq<CartRow>>)
    requires nav == NavSessionChecked(InitialNav, u, cart)
    requires app == Routing.SessionChecked(Routing.InitialApp, u)
    ensures forall l :: l in NavigationLinks(nav) ==> Routing.Route(app, l.path) == Routing.Page(l.path)
  {
    if u.Some? {
      RoleDefaultsAgreeOnBranch(u.value);
      SignedInLinksRender(nav, app);
    }
  }

  /** For a signed-in user whose two role tests agree, every link is a rendered page. */
  lemma SignedInLinksRender(nav: NavState, app: Routing.AppState)
    requires nav.session.Some? && !app.loading && app.session.Some?
    requires RoleBranch(nav.role) == RoleBranch(app.role)
    ensures forall l :: l in NavigationLinks(nav) ==> Routing.Route(app, l.path) == Routing.Page(l.path)
  {
    var links := NavigationLinks(nav);
    forall l | l in links ensures Routing.Route(app, l.path) == Routing.Page(l.path) {
      var extra := links[2..];
      assert links == CommonLinks + extra;
      if l in CommonLinks {
        assert l.path == Home || l.path == ProductsPage;
      } else {
        assert l in extra;
        if nav.role == Some("doctor") {
          assert l.path == DoctorDashboardPage || l.path == ProfilePage;
        } else if nav.role == Some("admin") {
          assert l.path == AdminDashboardPage || l.path == ProfilePage;
        } else {
          assert Routing.SessionOnly(l.path);
        }
      }
    }
  }
}
