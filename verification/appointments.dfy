/**
 * The appointment table and the rules of the appointments hook: role
 * resolution, the role-by-tab query predicate, display-name enrichment, the
 * doctor's claim step, and the booking form that creates appointments.
 */
module Appointments {
  import opened Common

  /** The signed-in principal: id, email and the `role` attribute of its metadata. */
  datatype User = User(id: Id, email: Option<string>, role: Option<string>)

  /** The three branches role-dependent code takes. */
  datatype Branch = DoctorBranch | AdminBranch | PatientBranch

  /** Only the exact strings "doctor" and "admin" are special; anything else, or no role, is a patient. */
  function RoleBranch(role: Option<string>): Branch {
    if role == Some("doctor") then DoctorBranch
    else if role == Some("admin") then AdminBranch
    else PatientBranch
  }

  lemma OnlyExactRolesAreSpecial(role: Option<string>)
    ensures RoleBranch(role) == DoctorBranch <==> role == Some("doctor")
    ensures RoleBranch(role) == AdminBranch <==> role == Some("admin")
    ensures RoleBranch(role) == PatientBranch <==> role != Some("doctor") && role != Some("admin")
    ensures RoleBranch(None) == PatientBranch && RoleBranch(Some("Doctor")) == PatientBranch
  {
  }

  // ---------------------------------------------------------------------
  // Status vocabulary
  // ---------------------------------------------------------------------

  /** The appointment status; the column is free text, so unknown values are kept verbatim. */
  datatype Status = Pending | Accepted | Rejected | Other(text: string)

  /** An `Other` never spells one of the three known statuses. */
  predicate Canonical(s: Status) {
    s.Other? ==> s.text != "pending" && s.text != "accepted" && s.text != "rejected"
  }

  function StatusText(s: Status): string {
    match s
    case Pending => "pending"
    case Accepted => "accepted"
    case Rejected => "rejected"
    case Other(t) => t
  }

  /** Reads a status column; the result prints back as the same text. */
  function ParseStatus(t: string): (s: Status)
    ensures StatusText(s) == t
    ensures Canonical(s)
  {
    if t == "pending" then Pending
    else if t == "accepted" then Accepted
    else if t == "rejected" then Rejected
    else Other(t)
  }

  /** Printing a canonical status and reading it back gives the same status. */
  lemma ParseStatusText(s: Status)
    requires Canonical(s)
    ensures ParseStatus(StatusText(s)) == s
  {
  }

  /** The tabs of the appointments views. */
  datatype Tab = AllTab | PendingTab | AcceptedTab | RejectedTab

  function TabText(t: Tab): string {
    match t
    case AllTab => "all"
    case PendingTab => "pending"
    case AcceptedTab => "accepted"
    case RejectedTab => "rejected"
  }

  /** A doctor's answer to a pending request. */
  datatype Decision = Accept | Reject

  function DecisionStatus(d: Decision): Status {
    if d == Accept then Accepted else Rejected
  }

  // ---------------------------------------------------------------------
  // The appointments table
  // ---------------------------------------------------------------------

  /** One row of the appointments table (`created_at` as an opaque ordered stamp). */
  datatype Appointment = Appointment(
    id: Id,
    patientId: Id,
    doctorId: Option<Id>,
    contact: string,
    preferredTime: Option<string>,
    notes: Option<string>,
    status: string,
    createdAt: int)

  /** The shared pool: no doctor has acted on the request yet. */
  predicate UnassignedPending(a: Appointment) {
    a.doctorId == None && a.status == "pending"
  }

  /** Design invariant: a row is unassigned exactly while it is pending. */
  predicate Consistent(a: Appointment) {
    a.doctorId == None <==> a.status == "pending"
  }

  predicate ConsistentStore(rows: seq<Appointment>) {
    forall i :: 0 <= i < |rows| ==> Consistent(rows[i])
  }

  predicate UniqueIds(rows: seq<Appointment>) {
    forall i, j :: 0 <= i < j < |rows| ==> rows[i].id != rows[j].id
  }

  predicate HasId(rows: seq<Appointment>, id: Id) {
    exists i :: 0 <= i < |rows| && rows[i].id == id
  }

  // ---------------------------------------------------------------------
  // The role-by-tab query
  // ---------------------------------------------------------------------

  /** The WHERE clause `fetchAppointments` builds for the caller's role and tab. */
  predicate Selects(role: Option<string>, self: Id, tab: Tab, a: Appointment) {
    match RoleBranch(role)
    case DoctorBranch =>
      if tab == PendingTab then UnassignedPending(a)
      else if tab == AllTab then a.doctorId == Some(self)
      else a.doctorId == Some(self) && a.status == TabText(tab)
    case AdminBranch =>
      tab == AllTab || a.status == TabText(tab)
    case PatientBranch =>
      a.patientId == self && (tab == AllTab || a.status == TabText(tab))
  }

  /** The rows the query returns for `user` on `tab`, in table order. */
  function Query(rows: seq<Appointment>, user: User, tab: Tab): (r: seq<Appointment>)
    ensures forall a :: a in r <==> a in rows && Selects(user.role, user.id, tab, a)
    ensures multiset(r) <= multiset(rows)
  {
    Filter(rows, (a: Appointment) => Selects(user.role, user.id, tab, a))
  }

  /** A doctor's pending tab is the unclaimed pool, the same for every doctor. */
  lemma {:induction false} DoctorPendingIsSharedPool(rows: seq<Appointment>, u: User, v: User)
    requires u.role == Some("doctor") && v.role == Some("doctor")
    ensures Query(rows, u, PendingTab) == Query(rows, v, PendingTab)
    ensures forall a :: a in Query(rows, u, PendingTab) <==> a in rows && UnassignedPending(a)
  {
    FilterSameOn(rows,
      (a: Appointment) => Selects(u.role, u.id, PendingTab, a),
      (a: Appointment) => Selects(v.role, v.id, PendingTab, a));
  }

  /** On every other tab a doctor sees only rows assigned to them. */
  lemma DoctorOtherTabsAreSelfScoped(rows: seq<Appointment>, u: User, tab: Tab)
    requires u.role == Some("doctor") && tab != PendingTab
    ensures forall a :: a in Query(rows, u, tab) <==>
      a in rows && a.doctorId == Some(u.id) && (tab == AllTab || a.status == TabText(tab))
  {
  }

  /** The pool and a doctor's own rows never overlap. */
  lemma DoctorPendingAndAllDisjoint(rows: seq<Appointment>, u: User)
    requires u.role == Some("doctor")
    ensures forall a :: !(a in Query(rows, u, PendingTab) && a in Query(rows, u, AllTab))
  {
  }

  /** An admin's all tab is the whole table; other tabs filter on status only. */
  lemma {:induction false} AdminSeesEverything(rows: seq<Appointment>, u: User, tab: Tab)
    requires u.role == Some("admin")
    ensures Query(rows, u, AllTab) == rows
    ensures forall a :: a in Query(rows, u, tab) <==> a in rows && (tab == AllTab || a.status == TabText(tab))
  {
    assert RoleBranch(u.role) == AdminBranch;
    FilterKeepsAll(rows, (a: Appointment) => Selects(u.role, u.id, AllTab, a));
  }

  /** A patient (any role other than doctor or admin) sees only their own rows. */
  lemma PatientSeesOnlyOwnRows(rows: seq<Appointment>, u: User, tab: Tab)
    requires RoleBranch(u.role) == PatientBranch
    ensures forall a :: a in Query(rows, u, tab) <==>
      a in rows && a.patientId == u.id && (tab == AllTab || a.status == TabText(tab))
  {
  }

  // ---------------------------------------------------------------------
  // Enrichment and the fetch
  // ---------------------------------------------------------------------

  /** A fetched row with the names the list displays. */
  datatype AppointmentView = AppointmentView(
    appointment: Appointment, patientName: string, doctorEmail: Option<string>)

  /**
   * The email prefix of the patient when the user lookup yields one that is
   * not empty, else `"Patient-"` and the first six characters of the id.
   * `emails` holds the users the lookup finds that have an email.
   */
  function PatientName(patientId: Id, emails: map<Id, string>): (r: string)
    ensures r != ""
    ensures patientId in emails && Before(emails[patientId], '@') != "" ==>
      '@' !in r && IsPrefix(r, emails[patientId]) &&
      (|r| == |emails[patientId]| || emails[patientId][|r|] == '@')
    ensures !(patientId in emails && Before(emails[patientId], '@') != "") ==>
      r == "Patient-" + Take(patientId, 6)
  {
    var fallback := "Patient-" + Take(patientId, 6);
    if patientId in emails then
      var prefix := Before(emails[patientId], '@');
      if prefix != "" then prefix else fallback
    else fallback
  }

  /** The assigned doctor's email, looked up only when a doctor is assigned. */
  function DoctorEmail(a: Appointment, emails: map<Id, string>): Option<string> {
    if Truthy(a.doctorId) && a.doctorId.value in emails then Some(emails[a.doctorId.value]) else None
  }

  function Enrich(a: Appointment, emails: map<Id, string>): AppointmentView {
    AppointmentView(a, PatientName(a.patientId, emails), DoctorEmail(a, emails))
  }

  function AppointmentsOf(views: seq<AppointmentView>): seq<Appointment> {
    seq(|views|, i requires 0 <= i < |views| => views[i].appointment)
  }

  /**
   * `fetchAppointments`: with no user, or when the query fails (`store` is
   * None), the displayed list stays as it was; otherwise it is replaced by
   * the enriched query result, which is `[]` when nothing matches.
   */
  function Fetch(current: seq<AppointmentView>, user: Option<User>, store: Option<seq<Appointment>>,
                 emails: map<Id, string>, tab: Tab): (r: seq<AppointmentView>)
    ensures user.None? || store.None? ==> r == current
    ensures user.Some? && store.Some? ==>
      AppointmentsOf(r) == Query(store.value, user.value, tab) &&
      (forall a :: a in AppointmentsOf(r) <==> a in store.value && Selects(user.value.role, user.value.id, tab, a)) &&
      (forall i :: 0 <= i < |r| ==> r[i].patientName == PatientName(r[i].appointment.patientId, emails)) &&
      (forall i :: 0 <= i < |r| ==> (r[i].doctorEmail.Some? ==> Truthy(r[i].appointment.doctorId))) &&
      (forall i :: 0 <= i < |r| ==>
        var doctor := r[i].appointment.doctorId;
        r[i].doctorEmail == if Truthy(doctor) && doctor.value in emails then Some(emails[doctor.value]) else None)
  {
    if user.None? || store.None? then current
    else
      var q := Query(store.value, user.value, tab);
      var r := seq(|q|, i requires 0 <= i < |q| => Enrich(q[i], emails));
      assert AppointmentsOf(r) == q;
      r
  }

  /** Two fetches with no store change in between show the same list. */
  lemma FetchIsIdempotent(current: seq<AppointmentView>, user: Option<User>, store: Option<seq<Appointment>>,
                          emails: map<Id, string>, tab: Tab)
    ensures Fetch(Fetch(current, user, store, emails, tab), user, store, emails, tab)
         == Fetch(current, user, store, emails, tab)
  {
  }

  // ---------------------------------------------------------------------
  // The claim step (`handleUpdateStatus`)
  // ---------------------------------------------------------------------

  function WithId(rows: seq<Appointment>, id: Id): seq<Appointment> {
    Filter(rows, (a: Appointment) => a.id == id)
  }

  /** `.eq('id', id).single()`: the row, when exactly one row has this id. */
  function SingleById(rows: seq<Appointment>, id: Id): (r: Option<Appointment>)
    ensures r.Some? <==> |WithId(rows, id)| == 1
    ensures r.Some? ==> r.value in rows && r.value.id == id
  {
    var m := WithId(rows, id);
    if |m| == 1 then assert m[0] in m; Some(m[0]) else None
  }

  function Assign(a: Appointment, doctor: Id, d: Decision): Appointment {
    a.(status := StatusText(DecisionStatus(d)), doctorId := Some(doctor))
  }

  /** `update({status, doctor_id}).eq('id', id)`. */
  function UpdateById(rows: seq<Appointment>, id: Id, doctor: Id, d: Decision): (r: seq<Appointment>)
    ensures |r| == |rows|
    ensures forall i :: 0 <= i < |rows| ==>
      r[i] == (if rows[i].id == id then Assign(rows[i], doctor, d) else rows[i])
  {
    if |rows| == 0 then []
    else [if rows[0].id == id then Assign(rows[0], doctor, d) else rows[0]] + UpdateById(rows[1..], id, doctor, d)
  }

  datatype ClaimOutcome =
    | NotAuthenticated   // no signed-in user
    | PermissionDenied   // the role is not exactly "doctor"
    | LookupFailed       // the row could not be read as a single row
    | AlreadyAssigned    // another doctor acted first; the list is refreshed
    | UpdateFailed       // the store rejected the update
    | Claimed

  datatype ClaimResult = ClaimResult(outcome: ClaimOutcome, store: seq<Appointment>, refresh: bool)

  /**
   * A doctor accepts or rejects appointment `id`. The guard reads the row and
   * tests `doctor_id` only (not `status`). The read and the write are two
   * round trips in the application; here they form one sequential step, so
   * interleavings of two doctors are not represented.
   */
  function Claim(rows: seq<Appointment>, user: Option<User>, id: Id, d: Decision, updateOk: bool): (r: ClaimResult)
    ensures r.outcome == Claimed <==>
      user.Some? && user.value.role == Some("doctor") &&
      SingleById(rows, id).Some? && SingleById(rows, id).value.doctorId.None? && updateOk
    ensures r.outcome != Claimed ==> r.store == rows
    ensures r.outcome == Claimed ==> r.store == UpdateById(rows, id, user.value.id, d)
    ensures r.refresh <==> r.outcome == AlreadyAssigned || r.outcome == Claimed
    ensures |r.store| == |rows|
    ensures user.None? ==> r.outcome == NotAuthenticated
    ensures user.Some? && user.value.role != Some("doctor") ==> r.outcome == PermissionDenied
    ensures user.Some? && user.value.role == Some("doctor") && SingleById(rows, id).None? ==> r.outcome == LookupFailed
    ensures user.Some? && user.value.role == Some("doctor") && SingleById(rows, id).Some? ==>
      (SingleById(rows, id).value.doctorId.Some? ==> r.outcome == AlreadyAssigned && r.refresh) &&
      (SingleById(rows, id).value.doctorId.None? && !updateOk ==> r.outcome == UpdateFailed)
  {
    if user.None? then ClaimResult(NotAuthenticated, rows, false)
    else if user.value.role != Some("doctor") then ClaimResult(PermissionDenied, rows, false)
    else
      var current := SingleById(rows, id);
      if current.None? then ClaimResult(LookupFailed, rows, false)
      else if current.value.doctorId.Some? then ClaimResult(AlreadyAssigned, rows, true)
      else if !updateOk then ClaimResult(UpdateFailed, rows, false)
      else
        ClaimResult(Claimed, UpdateById(rows, id, user.value.id, d), true)
  }

  /**
   * Terminal states: a claim changes only the one unassigned row with this id,
   * and that row leaves the pool carrying the acting doctor and a final status.
   */
  lemma ClaimTouchesOnlyTheUnassignedRow(rows: seq<Appointment>, user: Option<User>, id: Id, d: Decision, ok: bool)
    ensures var s := Claim(rows, user, id, d, ok).store;
      forall i :: 0 <= i < |rows| && rows[i].doctorId.Some? ==> s[i] == rows[i]
    ensures var s := Claim(rows, user, id, d, ok).store;
      forall i :: 0 <= i < |rows| && s[i] != rows[i] ==>
        rows[i].id == id && rows[i].doctorId.None? && user.Some? &&
        s[i].doctorId == Some(user.value.id) && s[i].status != "pending"
  {
    var r := Claim(rows, user, id, d, ok);
    if r.outcome == Claimed {
      var m := WithId(rows, id);
      forall i | 0 <= i < |rows| && rows[i].id == id ensures rows[i] == m[0] {
        assert rows[i] in m;
      }
    }
  }

  /** After the update every row with this id carries the doctor, and there are as many as before. */
  lemma {:induction false} UpdateByIdKeepsIdentity(rows: seq<Appointment>, id: Id, doctor: Id, d: Decision)
    ensures |WithId(UpdateById(rows, id, doctor, d), id)| == |WithId(rows, id)|
    ensures forall a :: a in WithId(UpdateById(rows, id, doctor, d), id) ==> a.doctorId == Some(doctor)
  {
    if |rows| > 0 {
      var r := UpdateById(rows, id, doctor, d);
      assert r[1..] == UpdateById(rows[1..], id, doctor, d);
      UpdateByIdKeepsIdentity(rows[1..], id, doctor, d);
    }
  }

  /** Single assignment: once claimed, no later claim on that id changes anything. */
  lemma SecondClaimChangesNothing(rows: seq<Appointment>, first: User, id: Id, d: Decision,
                                  second: Option<User>, d2: Decision, ok2: bool)
    requires Claim(rows, Some(first), id, d, true).outcome == Claimed
    ensures var s := Claim(rows, Some(first), id, d, true).store;
      Claim(s, second, id, d2, ok2).outcome != Claimed &&
      Claim(s, second, id, d2, ok2).store == s &&
      (second.Some? && second.value.role == Some("doctor") ==> Claim(s, second, id, d2, ok2).outcome == AlreadyAssigned)
  {
    UpdateByIdKeepsIdentity(rows, id, first.id, d);
    var s := Claim(rows, Some(first), id, d, true).store;
    var m := WithId(s, id);
    if |m| == 1 {
      assert m[0] in m;
    }
  }

  /** Once claimed, a request leaves every doctor's pending pool. */
  lemma ClaimedLeavesPool(rows: seq<Appointment>, first: User, id: Id, d: Decision, other: User)
    requires Claim(rows, Some(first), id, d, true).outcome == Claimed
    requires other.role == Some("doctor")
    ensures forall a :: a in Query(Claim(rows, Some(first), id, d, true).store, other, PendingTab) ==> a.id != id
  {
    var s := Claim(rows, Some(first), id, d, true).store;
    assert forall i :: 0 <= i < |s| && s[i].id == id ==> s[i].doctorId.Some?;
  }

  /** Claims keep the table consistent: no row returns to pending, none stays pending once assigned. */
  lemma ClaimPreservesConsistency(rows: seq<Appointment>, user: Option<User>, id: Id, d: Decision, ok: bool)
    requires ConsistentStore(rows)
    ensures ConsistentStore(Claim(rows, user, id, d, ok).store)
  {
  }

  // ---------------------------------------------------------------------
  // Booking (`BookAppointment.handleSubmit`)
  // ---------------------------------------------------------------------

  datatype BookForm = BookForm(contact: string, preferredTime: string, notes: string)

  const EmptyBookForm := BookForm("", "", "")

  datatype BookOutcome = LoginRequired | ContactRequired | InsertFailed | Booked

  datatype BookResult = BookResult(outcome: BookOutcome, store: seq<Appointment>, form: BookForm, navigate: Option<Path>)

  /**
   * Books a consultation for the signed-in patient. `freshId` and `createdAt`
   * stand for the values the store generates; `insertOk` for the store's answer.
   */
  function Book(rows: seq<Appointment>, userId: Option<Id>, form: BookForm, freshId: Id, createdAt: int,
                insertOk: bool): (r: BookResult)
    ensures !Truthy(userId) ==> r.outcome == LoginRequired && r.navigate == Some(AuthPage)
    ensures Truthy(userId) && form.contact == "" ==> r.outcome == ContactRequired && r.navigate == None
    ensures r.outcome == Booked <==> Truthy(userId) && form.contact != "" && insertOk
    ensures r.outcome != Booked ==> r.store == rows && r.form == form
    ensures r.outcome == InsertFailed ==> r.navigate == None
    ensures r.outcome == Booked ==>
      |r.store| == |rows| + 1 && r.store[..|rows|] == rows &&
      r.store[|rows|] == Appointment(freshId, userId.value, None, form.contact,
                                     Some(form.preferredTime), Some(form.notes), "pending", createdAt) &&
      r.form == EmptyBookForm && r.navigate == Some(AppointmentsPage)
  {
    if !Truthy(userId) then BookResult(LoginRequired, rows, form, Some(AuthPage))
    else if form.contact == "" then BookResult(ContactRequired, rows, form, None)
    else if !insertOk then BookResult(InsertFailed, rows, form, None)
    else
      var a := Appointment(freshId, userId.value, None, form.contact,
                           Some(form.preferredTime), Some(form.notes), "pending", createdAt);
      assert (rows + [a])[..|rows|] == rows;
      BookResult(Booked, rows + [a], EmptyBookForm, Some(AppointmentsPage))
  }

  /** A new booking is in every doctor's pending pool and in its patient's all tab. */
  lemma BookedRowIsVisible(rows: seq<Appointment>, patient: User, form: BookForm, freshId: Id, createdAt: int,
                           doctor: User)
    requires Book(rows, Some(patient.id), form, freshId, createdAt, true).outcome == Booked
    requires RoleBranch(patient.role) == PatientBranch
    requires doctor.role == Some("doctor")
    ensures var s := Book(rows, Some(patient.id), form, freshId, createdAt, true).store;
      s[|rows|] in Query(s, doctor, PendingTab) && s[|rows|] in Query(s, patient, AllTab)
  {
    var s := Book(rows, Some(patient.id), form, freshId, createdAt, true).store;
    assert s[|rows|] in s;
  }

  /** Booking keeps the table consistent and, with an unused id, keeps ids unique. */
  lemma BookPreservesInvariants(rows: seq<Appointment>, userId: Option<Id>, form: BookForm, freshId: Id,
                                createdAt: int, ok: bool)
    requires ConsistentStore(rows) && UniqueIds(rows) && !HasId(rows, freshId)
    ensures ConsistentStore(Book(rows, userId, form, freshId, createdAt, ok).store)
    ensures UniqueIds(Book(rows, userId, form, freshId, createdAt, ok).store)
  {
    var r := Book(rows, userId, form, freshId, createdAt, ok);
    if r.outcome == Booked {
      forall i | 0 <= i < |r.store| ensures Consistent(r.store[i]) {
        if i < |rows| { assert r.store[i] == r.store[..|rows|][i]; }
      }
      forall i, j | 0 <= i < j < |r.store| ensures r.store[i].id != r.store[j].id {
        assert r.store[i] == r.store[..|rows|][i];
        if j < |rows| { assert r.store[j] == r.store[..|rows|][j]; }
      }
    }
  }
}
