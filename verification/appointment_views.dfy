/**
 * What the appointments page shows: the status badge, the empty-state
 * message, the table of the appointments list (actions column or status
 * column), and the page's choice between loading, empty and list views,
 * including its remapping of the "all" tab to "pending" for display.
 */
module AppointmentViews {
  import opened Common
  import opened Appointments

  /** The badge text for a status column: known statuses capitalised, others verbatim. */
  function BadgeLabel(status: string): (badge: string)
    ensures status == "pending" ==> badge == "Pending"
    ensures status == "accepted" ==> badge == "Accepted"
    ensures status == "rejected" ==> badge == "Rejected"
    ensures status != "pending" && status != "accepted" && status != "rejected" ==> badge == status
  {
    match ParseStatus(status)
    case Pending => "Pending"
    case Accepted => "Accepted"
    case Rejected => "Rejected"
    case Other(t) => t
  }

  /** The message of the empty state for a tab. */
  function EmptyStateMessage(tab: Tab): string {
    match tab
    case PendingTab => "No pending appointments found"
    case AcceptedTab => "No accepted appointments found"
    case RejectedTab => "No rejected appointments found"
    case AllTab => "No appointments found"
  }

  /** The message the list's empty row builds from the tab name. */
  function EmptyRowMessage(tab: Tab): string {
    "No " + TabText(tab) + " appointments found"
  }

  /** Except on "all", the empty state and the list's empty row say the same thing. */
  lemma EmptyStateAgreesWithList(tab: Tab)
    ensures tab != AllTab <==> EmptyStateMessage(tab) == EmptyRowMessage(tab)
  {
    match tab
    case AllTab =>
      assert |EmptyStateMessage(tab)| == 21;
      assert |EmptyRowMessage(tab)| == 25;
    case PendingTab => PendingMessagesAgree();
    case AcceptedTab => AcceptedMessagesAgree();
    case RejectedTab => RejectedMessagesAgree();
  }

  lemma PendingMessagesAgree()
    ensures EmptyStateMessage(PendingTab) == EmptyRowMessage(PendingTab)
  {
    var m, n := EmptyStateMessage(PendingTab), EmptyRowMessage(PendingTab);
    assert n == "No " + "pending" + " appointments found";
    assert forall i :: 0 <= i < 29 ==> m[i] == n[i];
  }

  lemma AcceptedMessagesAgree()
    ensures EmptyStateMessage(AcceptedTab) == EmptyRowMessage(AcceptedTab)
  {
    var m, n := EmptyStateMessage(AcceptedTab), EmptyRowMessage(AcceptedTab);
    assert n == "No " + "accepted" + " appointments found";
    assert forall i :: 0 <= i < 30 ==> m[i] == n[i];
  }

  lemma RejectedMessagesAgree()
    ensures EmptyStateMessage(RejectedTab) == EmptyRowMessage(RejectedTab)
  {
    var m, n := EmptyStateMessage(RejectedTab), EmptyRowMessage(RejectedTab);
    assert n == "No " + "rejected" + " appointments found";
    assert forall i :: 0 <= i < 30 ==> m[i] == n[i];
  }

  /** The four tabs give four different messages. */
  lemma EmptyStateMessagesDistinct(t: Tab, u: Tab)
    requires t != u
    ensures EmptyStateMessage(t) != EmptyStateMessage(u)
  {
    var m, n := EmptyStateMessage(t), EmptyStateMessage(u);
    if |m| == |n| {
      // Equal lengths occur only for "accepted" against "rejected"; they differ at index 3.
      assert m[3] != n[3];
    }
  }

  // ---------------------------------------------------------------------
  // The appointments list table
  // ---------------------------------------------------------------------

  /** `isDoctor`: false until a signed-in user whose role is exactly "doctor" is seen. */
  function IsDoctor(user: Option<User>): bool {
    user.Some? && user.value.role == Some("doctor")
  }

  /** The Accept/Reject column replaces the status column only for a doctor on the pending tab. */
  predicate ShowsActions(tab: Tab, isDoctor: bool) {
    tab == PendingTab && isDoctor
  }

  function HeaderColumns(tab: Tab, isDoctor: bool): seq<string> {
    ["Patient", "Contact", "Preferred Time", "Notes"] + (if ShowsActions(tab, isDoctor) then ["Actions"] else ["Status"])
  }

  datatype LastCell = ActionButtons(appointmentId: Id) | StatusCell(badge: string)

  datatype ListRow =
    | EmptyRow(message: string)
    | AppointmentRow(patient: string, contact: string, preferredTime: string, notes: string, last: LastCell)

  function RowFor(v: AppointmentView, tab: Tab, isDoctor: bool): ListRow {
    var a := v.appointment;
    AppointmentRow(v.patientName, a.contact, OrElse(a.preferredTime, "Not specified"), OrElse(a.notes, "-"),
                   if ShowsActions(tab, isDoctor) then ActionButtons(a.id) else StatusCell(BadgeLabel(a.status)))
  }

  /** The table body: one row per appointment in order, or one row saying nothing was found. */
  function ListRows(views: seq<AppointmentView>, tab: Tab, isDoctor: bool): (rows: seq<ListRow>)
    ensures |views| == 0 ==> rows == [EmptyRow(EmptyRowMessage(tab))]
    ensures |views| > 0 ==> |rows| == |views|
    ensures |views| > 0 ==> forall i :: 0 <= i < |rows| ==>
      rows[i].AppointmentRow? &&
      rows[i].patient == views[i].patientName &&
      rows[i].contact == views[i].appointment.contact &&
      (rows[i].preferredTime == "Not specified" <== !Truthy(views[i].appointment.preferredTime)) &&
      (Truthy(views[i].appointment.preferredTime) ==> rows[i].preferredTime == views[i].appointment.preferredTime.value) &&
      (rows[i].notes == "-" <== !Truthy(views[i].appointment.notes)) &&
      (Truthy(views[i].appointment.notes) ==> rows[i].notes == views[i].appointment.notes.value) &&
      (rows[i].last.ActionButtons? <==> ShowsActions(tab, isDoctor)) &&
      (rows[i].last.ActionButtons? ==> rows[i].last.appointmentId == views[i].appointment.id) &&
      (rows[i].last.StatusCell? ==> rows[i].last.badge == BadgeLabel(views[i].appointment.status))
  {
    if |views| == 0 then [EmptyRow(EmptyRowMessage(tab))]
    else seq(|views|, i requires 0 <= i < |views| => RowFor(views[i], tab, isDoctor))
  }

  /** The header's last column and every row's last cell agree. */
  lemma HeaderMatchesRows(views: seq<AppointmentView>, tab: Tab, isDoctor: bool)
    ensures var h := HeaderColumns(tab, isDoctor);
      |h| == 5 && (h[4] == "Actions" <==> ShowsActions(tab, isDoctor)) && (h[4] == "Status" <==> !ShowsActions(tab, isDoctor))
    ensures forall i :: 0 <= i < |ListRows(views, tab, isDoctor)| && ListRows(views, tab, isDoctor)[i].AppointmentRow? ==>
      (ListRows(views, tab, isDoctor)[i].last.ActionButtons? <==> HeaderColumns(tab, isDoctor)[4] == "Actions")
  {
  }

  // ---------------------------------------------------------------------
  // The appointments page
  // ---------------------------------------------------------------------

  const InitialTab: Tab := AllTab

  /** The tab handed to the list and to the empty state: "all" is shown as "pending". */
  function DisplayTab(tab: Tab): Tab {
    if tab == AllTab then PendingTab else tab
  }

  datatype PageView = LoadingView | EmptyView(message: string) | ListView(header: seq<string>, rows: seq<ListRow>)

  /**
   * The page body. The fetch uses the real tab; the list and the empty
   * state receive `DisplayTab(tab)`.
   */
  function PageContent(tab: Tab, loading: bool, views: seq<AppointmentView>, isDoctor: bool): (v: PageView)
    ensures loading ==> v == LoadingView
    ensures !loading && |views| == 0 ==> v == EmptyView(EmptyStateMessage(DisplayTab(tab)))
    ensures !loading && |views| > 0 ==> v.ListView? && |v.rows| == |views| && forall i :: 0 <= i < |v.rows| ==> v.rows[i].AppointmentRow?
    ensures (!loading && |views| > 0 ==>
      v.header == HeaderColumns(DisplayTab(tab), isDoctor) && v.rows == ListRows(views, DisplayTab(tab), isDoctor))
  {
    if loading then LoadingView
    else if |views| == 0 then EmptyView(EmptyStateMessage(DisplayTab(tab)))
    else ListView(HeaderColumns(DisplayTab(tab), isDoctor), ListRows(views, DisplayTab(tab), isDoctor))
  }

  /** Because of the remap, the page's empty state never shows the generic "all" message. */
  lemma PageNeverShowsGenericEmptyMessage(tab: Tab, views: seq<AppointmentView>, isDoctor: bool)
    ensures PageContent(tab, false, views, isDoctor) != EmptyView("No appointments found")
    ensures tab == AllTab && |views| == 0 ==> PageContent(tab, false, views, isDoctor) == EmptyView("No pending appointments found")
  {
    if |views| == 0 {
      EmptyStateMessagesDistinct(DisplayTab(tab), AllTab);
    }
  }

  /**
   * A doctor on the page's "all" tab sees their own assigned appointments
   * with Accept/Reject buttons, because the list is told the tab is "pending".
   */
  lemma DoctorAllTabShowsActionsOnOwnRows(rows: seq<Appointment>, doctor: User, emails: map<Id, string>,
                                          current: seq<AppointmentView>)
    requires doctor.role == Some("doctor")
    ensures var views := Fetch(current, Some(doctor), Some(rows), emails, AllTab);
      var page := PageContent(AllTab, false, views, IsDoctor(Some(doctor)));
      (forall i :: 0 <= i < |views| ==> views[i].appointment.doctorId == Some(doctor.id)) &&
      (|views| > 0 ==>
         page.ListView? && page.header[4] == "Actions" &&
         forall i :: 0 <= i < |page.rows| ==> page.rows[i].last == ActionButtons(views[i].appointment.id))
  {
    var views := Fetch(current, Some(doctor), Some(rows), emails, AllTab);
    forall i | 0 <= i < |views| ensures views[i].appointment.doctorId == Some(doctor.id) {
      assert views[i].appointment == AppointmentsOf(views)[i];
      assert AppointmentsOf(views)[i] in AppointmentsOf(views);
    }
  }

  /** Pressing one of those buttons on an own, assigned row is refused by the claim guard. */
  lemma ActionOnAssignedRowIsRefused(rows: seq<Appointment>, doctor: User, v: Appointment, d: Decision, ok: bool)
    requires doctor.role == Some("doctor")
    requires v in rows && v.doctorId == Some(doctor.id)
    ensures Claim(rows, Some(doctor), v.id, d, ok).outcome == AlreadyAssigned ||
            Claim(rows, Some(doctor), v.id, d, ok).outcome == LookupFailed
    ensures Claim(rows, Some(doctor), v.id, d, ok).store == rows
  {
    var m := WithId(rows, v.id);
    assert v in m;
    if |m| == 1 {
      assert m[0] == v;
    }
  }
}
