/**
 * The administrator's summary cards: patients and doctors counted from the
 * user list by exact role, the product count, and the count of appointments
 * whose status is "pending" whether or not a doctor is assigned.
 */
module AdminStats {
  import opened Common
  import opened Appointments
  import DoctorDashboard

  datatype Stats = Stats(totalUsers: nat, totalDoctors: nat, totalProducts: nat, pendingAppointments: nat)

  const InitialStats := Stats(0, 0, 0, 0)

  /** A head-only count query: it fails, or answers a possibly null count. */
  datatype CountReply = CountFailed | Counted(count: Option<nat>)

  /** The users whose role is exactly `role`. */
  function RoleCount(users: seq<User>, role: string): (n: nat)
    ensures n <= |users|
  {
    if |users| == 0 then 0
    else (if users[0].role == Some(role) then 1 else 0) + RoleCount(users[1..], role)
  }

  /** A user is counted as a patient or as a doctor, never as both. */
  lemma {:induction false} PatientsAndDoctorsDisjoint(users: seq<User>)
    ensures RoleCount(users, "patient") + RoleCount(users, "doctor") <= |users|
  {
    if |users| > 0 {
      PatientsAndDoctorsDisjoint(users[1..]);
    }
  }

  /** Adding a user whose role is not exactly `role` leaves that count unchanged. */
  lemma {:induction false} OtherRolesAreNotCounted(users: seq<User>, u: User, role: string)
    requires u.role != Some(role)
    ensures RoleCount(users + [u], role) == RoleCount(users, role)
  {
    if |users| == 0 {
      assert users + [u] == [u];
    } else {
      assert (users + [u])[1..] == users[1..] + [u];
      OtherRolesAreNotCounted(users[1..], u, role);
    }
  }

  /** The count query `.eq('status', 'pending')`. */
  predicate PendingStatus(a: Appointment) {
    a.status == "pending"
  }

  function PendingStatusCount(rows: seq<Appointment>): nat {
    |Filter(rows, PendingStatus)|
  }

  /**
   * One load of the cards. `users` is the user listing (None when it fails,
   * which leaves the cards as they were); `products` is the product count
   * query's reply, whose null count shows as 0; `appointments` is the
   * appointments table the pending count runs over (None when that query
   * fails). The cards change only when both count queries succeed.
   */
  function FetchStats(s: Stats, users: Option<seq<User>>, products: CountReply,
                      appointments: Option<seq<Appointment>>): (r: Stats)
    ensures users.None? || products.CountFailed? || appointments.None? ==> r == s
    ensures users.Some? && products.Counted? && appointments.Some? ==>
      r.totalUsers == RoleCount(users.value, "patient") &&
      r.totalDoctors == RoleCount(users.value, "doctor") &&
      (products.count.Some? ==> r.totalProducts == products.count.value) &&
      (products.count.None? ==> r.totalProducts == 0) &&
      r.pendingAppointments == |Filter(appointments.value, PendingStatus)|
  {
    match users
    case None => s
    case Some(us) =>
      if products.CountFailed? || appointments.None? then s
      else
        Stats(RoleCount(us, "patient"), RoleCount(us, "doctor"),
              if products.count.Some? then products.count.value else 0,
              PendingStatusCount(appointments.value))
  }

  /** The "total users" card counts patients only: an administrator account is left out. */
  lemma TotalUsersOmitsOtherRoles(s: Stats, users: seq<User>, admin: User, products: CountReply,
                                  appointments: Option<seq<Appointment>>)
    requires admin.role == Some("admin")
    requires products.Counted? && appointments.Some?
    ensures FetchStats(s, Some(users + [admin]), products, appointments).totalUsers == RoleCount(users, "patient")
    ensures RoleCount(users + [admin], "patient") + RoleCount(users + [admin], "doctor") < |users + [admin]|
  {
    OtherRolesAreNotCounted(users, admin, "patient");
    OtherRolesAreNotCounted(users, admin, "doctor");
    PatientsAndDoctorsDisjoint(users);
  }

  /**
   * The admin's pending card counts every "pending" row, so it is never
   * below the doctors' pool count, and the two agree when every row is
   * unassigned exactly while pending.
   */
  lemma {:induction false} AdminPendingCoversDoctorPool(rows: seq<Appointment>)
    ensures DoctorDashboard.PendingCount(rows) <= PendingStatusCount(rows)
    ensures ConsistentStore(rows) ==> DoctorDashboard.PendingCount(rows) == PendingStatusCount(rows)
  {
    FilterCountMonotone(rows, UnassignedPending, PendingStatus);
    if ConsistentStore(rows) {
      forall x | x in rows ensures UnassignedPending(x) == PendingStatus(x) {
        var i :| 0 <= i < |rows| && rows[i] == x;
        assert Consistent(rows[i]);
      }
      FilterSameOn(rows, UnassignedPending, PendingStatus);
    }
  }

  /** An assigned row left at "pending" makes the admin's card exceed the doctors' pool. */
  lemma {:induction false} AssignedPendingRowIsCountedOnlyByAdmin(rows: seq<Appointment>, a: Appointment)
    requires a.status == "pending" && a.doctorId.Some?
    ensures DoctorDashboard.PendingCount(rows + [a]) == DoctorDashboard.PendingCount(rows)
    ensures PendingStatusCount(rows + [a]) == PendingStatusCount(rows) + 1
  {
    FilterConcat(rows, [a], UnassignedPending);
    FilterConcat(rows, [a], PendingStatus);
    assert Filter([a], UnassignedPending) == [];
    assert Filter([a], PendingStatus) == [a];
  }

  /**
   * A successful load puts on the pending card a number never below the
   * doctors' pool count over the same table.
   */
  lemma {:induction false} LoadedPendingCardCoversDoctorPool(s: Stats, users: seq<User>, products: CountReply,
                                                             rows: seq<Appointment>)
    requires products.Counted?
    ensures DoctorDashboard.PendingCount(rows) <= FetchStats(s, Some(users), products, Some(rows)).pendingAppointments
  {
    AdminPendingCoversDoctorPool(rows);
  }
}
