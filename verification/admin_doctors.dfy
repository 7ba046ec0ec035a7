/**
 * The administrator's doctor list: the optimistic in-memory verify and
 * delete operations over the list of entries, and the Verify button rule.
 */
module AdminDoctors {
  import opened Common

  datatype DoctorEntry = DoctorEntry(id: Id, email: string, name: string, specialty: string,
                                     status: string, createdAt: string)

  /** The placeholder list the component loads. */
  const MockDoctors: seq<DoctorEntry> := [
    DoctorEntry("1", "doctor1@example.com", "Dr. John Smith", "Cardiology", "verified", "2023-05-01"),
    DoctorEntry("2", "doctor2@example.com", "Dr. Sarah Johnson", "Dermatology", "pending", "2023-05-15")
  ]

  /** Marks the entries with `id` as verified; every other entry is kept as it is, in place. */
  function Verify(list: seq<DoctorEntry>, id: Id): (r: seq<DoctorEntry>)
    ensures |r| == |list|
    ensures forall i :: 0 <= i < |list| && list[i].id == id ==> r[i] == list[i].(status := "verified")
    ensures forall i :: 0 <= i < |list| && list[i].id != id ==> r[i] == list[i]
  {
    seq(|list|, i requires 0 <= i < |list| => if list[i].id == id then list[i].(status := "verified") else list[i])
  }

  function WithoutId(id: Id): DoctorEntry -> bool {
    (d: DoctorEntry) => d.id != id
  }

  /** Removes the entries with `id` and keeps the rest in order. */
  function Delete(list: seq<DoctorEntry>, id: Id): (r: seq<DoctorEntry>)
    ensures forall e :: e in r <==> e in list && e.id != id
    ensures multiset(r) <= multiset(list)
  {
    Filter(list, WithoutId(id))
  }

  /** Deleting keeps the order of the survivors: it distributes over concatenation. */
  lemma DeleteKeepsOrder(a: seq<DoctorEntry>, b: seq<DoctorEntry>, id: Id)
    ensures Delete(a + b, id) == Delete(a, id) + Delete(b, id)
  {
    FilterConcat(a, b, WithoutId(id));
  }

  lemma VerifyIdempotent(list: seq<DoctorEntry>, id: Id)
    ensures Verify(Verify(list, id), id) == Verify(list, id)
  {
  }

  lemma DeleteIdempotent(list: seq<DoctorEntry>, id: Id)
    ensures Delete(Delete(list, id), id) == Delete(list, id)
  {
    FilterKeepsAll(Delete(list, id), WithoutId(id));
  }

  /** Once an id is deleted, verifying it finds nothing to change. */
  lemma VerifyAfterDeleteIsNoOp(list: seq<DoctorEntry>, id: Id)
    ensures Verify(Delete(list, id), id) == Delete(list, id)
  {
    var d := Delete(list, id);
    assert forall i :: 0 <= i < |d| ==> d[i] in d;
  }

  /** The Verify button appears only on a pending entry. */
  predicate ShowsVerify(e: DoctorEntry) {
    e.status == "pending"
  }

  /** After verifying an id, no entry with that id offers the button. */
  lemma VerifiedEntriesHideButton(list: seq<DoctorEntry>, id: Id)
    ensures forall e :: e in Verify(list, id) && e.id == id ==> !ShowsVerify(e)
  {
    var r := Verify(list, id);
    forall e | e in r && e.id == id ensures !ShowsVerify(e) {
      var i :| 0 <= i < |r| && r[i] == e;
    }
  }

  /** In the placeholder list only the second doctor offers the button. */
  lemma MockDoctorsVerifyButtons()
    ensures !ShowsVerify(MockDoctors[0]) && ShowsVerify(MockDoctors[1])
    ensures Verify(MockDoctors, "2") == [MockDoctors[0], MockDoctors[1].(status := "verified")]
  {
  }
}
