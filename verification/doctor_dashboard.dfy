/**
 * The doctor dashboard: its session and role gate, the greeting name, the
 * count of unassigned pending requests, the banner that reports it, and the
 * periodic recount.
 */
module DoctorDashboard {
  import opened Common
  import opened Appointments

  /** The dashboard's count query: rows with no doctor whose status is "pending". */
  function PendingCount(rows: seq<Appointment>): nat {
    |Filter(rows, UnassignedPending)|
  }

  /** The count is the size of the pending tab every doctor sees. */
  lemma PendingCountIsPoolSize(rows: seq<Appointment>, doctor: User)
    requires doctor.role == Some("doctor")
    ensures PendingCount(rows) == |Query(rows, doctor, PendingTab)|
  {
    FilterSameOn(rows, UnassignedPending, (a: Appointment) => Selects(doctor.role, doctor.id, PendingTab, a));
  }

  datatype DashboardState = DashboardState(loading: bool, role: Option<string>, doctorName: string, pendingCount: nat)

  const InitialDashboard := DashboardState(true, None, "Doctor", 0)

  datatype DashboardResult = DashboardResult(state: DashboardState, accessDenied: bool, navigate: Option<Path>)

  /**
   * One run of the dashboard load. `store` is the count query's reply
   * (None when it fails). The count is stored before the role is checked.
   */
  function LoadDashboard(s: DashboardState, session: Option<User>, store: Option<seq<Appointment>>): (r: DashboardResult)
    ensures session.None? ==> r == DashboardResult(s, false, Some(AuthPage))
    ensures session.Some? ==> !r.state.loading
    ensures session.Some? ==> (r.accessDenied <==> session.value.role != Some("doctor"))
    ensures session.Some? ==> (r.navigate == Some(Home) <==> r.accessDenied) && (r.navigate.Some? ==> r.accessDenied)
    ensures session.Some? ==> r.state.role == (if Truthy(session.value.role) then session.value.role else None)
    ensures session.Some? && Truthy(session.value.email) ==>
      var e := session.value.email.value;
      '@' !in r.state.doctorName && IsPrefix(r.state.doctorName, e) &&
      (|r.state.doctorName| == |e| || e[|r.state.doctorName|] == '@')
    ensures session.Some? && !Truthy(session.value.email) ==> r.state.doctorName == s.doctorName
    ensures session.Some? && store.Some? ==> r.state.pendingCount == |Filter(store.value, UnassignedPending)|
    ensures store.None? ==> r.state.pendingCount == s.pendingCount
  {
    match session
    case None => DashboardResult(s, false, Some(AuthPage))
    case Some(u) =>
      var name := if Truthy(u.email) then Before(u.email.value, '@') else s.doctorName;
      var count := if store.Some? then PendingCount(store.value) else s.pendingCount;
      var denied := u.role != Some("doctor");
      DashboardResult(DashboardState(false, if Truthy(u.role) then u.role else None, name, count),
                      denied, if denied then Some(Home) else None)
  }

  /** Even a denied visitor's load stores the count of the shared pool before leaving. */
  lemma DeniedLoadStillCounts(s: DashboardState, u: User, rows: seq<Appointment>)
    requires u.role != Some("doctor")
    ensures var r := LoadDashboard(s, Some(u), Some(rows));
      r.accessDenied && r.navigate == Some(Home) && r.state.pendingCount == PendingCount(rows)
  {
  }

  /** The banner sentence "There is/are N pending appointment(s) awaiting your review." */
  datatype Banner = Banner(verb: string, count: nat, noun: string)

  function PendingBanner(count: nat): (b: Option<Banner>)
    ensures b.Some? <==> count > 0
    ensures b.Some? ==> b.value.count == count
    ensures b.Some? ==> (b.value.verb == "is" <==> count == 1) && (b.value.verb == "are" <==> count != 1)
    ensures b.Some? ==> (b.value.noun == "pending appointment" <==> count == 1) &&
                        (b.value.noun == "pending appointments" <==> count != 1)
  {
    if count == 0 then None
    else Some(Banner(if count == 1 then "is" else "are", count,
                     "pending appointment" + (if count != 1 then "s" else "")))
  }

  /**
   * One tick of the 30-second interval: when the dashboard is not loading
   * and the query succeeds, the count is replaced; nothing else changes.
   */
  function Recount(s: DashboardState, store: Option<seq<Appointment>>): (r: DashboardState)
    ensures r.loading == s.loading && r.role == s.role && r.doctorName == s.doctorName
    ensures r.pendingCount != s.pendingCount ==> !s.loading && store.Some?
    ensures !s.loading && store.Some? ==> r.pendingCount == |Filter(store.value, UnassignedPending)|
  {
    if !s.loading && store.Some? then s.(pendingCount := PendingCount(store.value)) else s
  }

  /** A recount over an unchanged table after a successful load changes nothing. */
  lemma RecountAfterLoadIsStable(s: DashboardState, u: User, rows: seq<Appointment>)
    ensures var loaded := LoadDashboard(s, Some(u), Some(rows)).state;
      Recount(loaded, Some(rows)) == loaded
  {
  }
}
