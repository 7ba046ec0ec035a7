/**
 * The administrator's appointments table: every appointment, newest first,
 * each enriched with the patient's and the assigned doctor's e-mail, and
 * rendered into seven cells with their fallbacks.
 */
module AdminAppointments {
  import opened Common
  import opened Sorting
  import opened Appointments
  import AppointmentViews

  datatype AdminRow = AdminRow(appointment: Appointment, patientEmail: Option<string>, doctorEmail: Option<string>)

  /**
   * The e-mail of a user id, looked up only when the id is truthy; an unknown
   * user or an empty address yields null (`email || null`).
   */
  function LookupEmail(id: Option<Id>, emails: map<Id, string>): (r: Option<string>)
    ensures r.Some? <==> Truthy(id) && id.value in emails && emails[id.value] != ""
    ensures r.Some? ==> r.value == emails[id.value]
  {
    if Truthy(id) && id.value in emails && emails[id.value] != "" then Some(emails[id.value]) else None
  }

  function AdminEnrich(a: Appointment, emails: map<Id, string>): AdminRow {
    AdminRow(a, LookupEmail(Some(a.patientId), emails), LookupEmail(a.doctorId, emails))
  }

  function CreatedAt(a: Appointment): int {
    a.createdAt
  }

  function AdminAppointmentsOf(rows: seq<AdminRow>): (r: seq<Appointment>)
    ensures |r| == |rows| && forall i :: 0 <= i < |rows| ==> r[i] == rows[i].appointment
  {
    seq(|rows|, i requires 0 <= i < |rows| => rows[i].appointment)
  }

  /**
   * The admin fetch: `store` is the whole table (None when the query fails,
   * which keeps the current rows). The result holds every appointment
   * exactly once, ordered by creation time, newest first.
   */
  function AdminFetch(current: seq<AdminRow>, store: Option<seq<Appointment>>, emails: map<Id, string>): (r: seq<AdminRow>)
    ensures store.None? ==> r == current
    ensures store.Some? ==> |r| == |store.value|
    ensures store.Some? ==> multiset(AdminAppointmentsOf(r)) == multiset(store.value)
    ensures store.Some? ==> SortedDesc(AdminAppointmentsOf(r), CreatedAt)
    ensures store.Some? ==> forall i :: 0 <= i < |r| ==>
      r[i].patientEmail == LookupEmail(Some(r[i].appointment.patientId), emails) &&
      r[i].doctorEmail == LookupEmail(r[i].appointment.doctorId, emails) &&
      (r[i].doctorEmail.Some? ==> Truthy(r[i].appointment.doctorId))
  {
    match store
    case None => current
    case Some(rows) =>
      var sorted := SortDesc(rows, CreatedAt);
      var r := seq(|sorted|, i requires 0 <= i < |sorted| => AdminEnrich(sorted[i], emails));
      assert AdminAppointmentsOf(r) == sorted;
      r
  }

  /** An appointment is in the admin table exactly when it is in the store. */
  lemma AdminFetchShowsEveryRow(current: seq<AdminRow>, rows: seq<Appointment>, emails: map<Id, string>, a: Appointment)
    ensures a in AdminAppointmentsOf(AdminFetch(current, Some(rows), emails)) <==> a in rows
  {
    var shown := AdminAppointmentsOf(AdminFetch(current, Some(rows), emails));
    assert a in shown <==> a in multiset(shown);
  }

  /** The admin fetch agrees, as a set of rows, with the admin's "all" query. */
  lemma AdminFetchMatchesAdminQuery(current: seq<AdminRow>, rows: seq<Appointment>, emails: map<Id, string>,
                                    admin: User, a: Appointment)
    requires admin.role == Some("admin")
    ensures a in AdminAppointmentsOf(AdminFetch(current, Some(rows), emails)) <==> a in Query(rows, admin, AllTab)
  {
    AdminFetchShowsEveryRow(current, rows, emails, a);
    AdminSeesEverything(rows, admin, AllTab);
  }

  /** `getNameFromEmail`: "Unknown" for a falsy address, else the text before the first '@'. */
  function NameFromEmail(email: Option<string>): (r: string)
    ensures !Truthy(email) ==> r == "Unknown"
    ensures Truthy(email) ==>
      '@' !in r && IsPrefix(r, email.value) && (|r| == |email.value| || email.value[|r|] == '@')
  {
    if !Truthy(email) then "Unknown" else Before(email.value, '@')
  }

  /** `getStatusBadge`, written as the component's own switch on the raw status. */
  function AdminStatusBadge(status: string): string {
    if status == "pending" then "Pending"
    else if status == "accepted" then "Accepted"
    else if status == "rejected" then "Rejected"
    else status
  }

  /** The admin table and the appointments list label every status alike. */
  lemma StatusBadgesAgree(status: string)
    ensures AdminStatusBadge(status) == AppointmentViews.BadgeLabel(status)
  {
  }

  /** The rendered text of one row; the creation date's formatting is not modelled. */
  datatype AdminCells = AdminCells(patient: string, doctor: string, contact: string,
                                   preferredTime: string, status: string, notes: string)

  function Cells(row: AdminRow): (c: AdminCells)
    ensures c.patient == NameFromEmail(row.patientEmail)
    ensures !Truthy(row.appointment.doctorId) ==> c.doctor == "Not Assigned"
    ensures Truthy(row.appointment.doctorId) ==> c.doctor == NameFromEmail(row.doctorEmail)
    ensures c.contact == row.appointment.contact
    ensures !Truthy(row.appointment.preferredTime) ==> c.preferredTime == "Not specified"
    ensures Truthy(row.appointment.preferredTime) ==> c.preferredTime == row.appointment.preferredTime.value
    ensures c.status == AppointmentViews.BadgeLabel(row.appointment.status)
    ensures !Truthy(row.appointment.notes) ==> c.notes == "-"
    ensures Truthy(row.appointment.notes) ==> c.notes == row.appointment.notes.value
  {
    var a := row.appointment;
    AdminCells(NameFromEmail(row.patientEmail),
               if Truthy(a.doctorId) then NameFromEmail(row.doctorEmail) else "Not Assigned",
               a.contact, OrElse(a.preferredTime, "Not specified"), AdminStatusBadge(a.status), OrElse(a.notes, "-"))
  }

  datatype AdminTableRow = NoAppointments | AppointmentCells(cells: AdminCells)

  /** The table body: one placeholder row when empty, else one row of cells per appointment. */
  function AdminTable(rows: seq<AdminRow>): (t: seq<AdminTableRow>)
    ensures |rows| == 0 ==> t == [NoAppointments]
    ensures |rows| > 0 ==> |t| == |rows| && forall i :: 0 <= i < |t| ==> t[i] == AppointmentCells(Cells(rows[i]))
  {
    if |rows| == 0 then [NoAppointments]
    else seq(|rows|, i requires 0 <= i < |rows| => AppointmentCells(Cells(rows[i])))
  }

  /** An unassigned appointment of a known patient shows that patient's name and "Not Assigned". */
  lemma UnassignedRowCells(a: Appointment, emails: map<Id, string>)
    requires a.doctorId == None
    requires a.patientId != "" && a.patientId in emails && emails[a.patientId] != ""
    ensures var c := Cells(AdminEnrich(a, emails));
      c.doctor == "Not Assigned" && c.patient == Before(emails[a.patientId], '@')
  {
  }
}
