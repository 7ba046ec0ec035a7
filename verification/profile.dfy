/**
 * The profile page: loading the signed-in user's profile row into the form
 * (a null column shows as an empty field) and saving the form back (an
 * empty field is stored as null), restricted to the user's own row.
 */
module Profile {
  import opened Common
  import opened Appointments
  import Routing

  /** A row of the profiles table; the three editable columns are nullable. */
  datatype ProfileRow = ProfileRow(
    id: Id,
    name: Option<string>,
    phone: Option<string>,
    address: Option<string>,
    updatedAt: Option<string>)

  /** The form's fields, which are never null. */
  datatype ProfileForm = ProfileForm(email: string, name: string, phone: string, address: string)

  const EmptyForm := ProfileForm("", "", "", "")

  /** Reading a column into a field: `column || ""`. */
  function FromColumn(c: Option<string>): (s: string)
    ensures c.Some? ==> s == c.value
    ensures c.None? ==> s == ""
  {
    OrElse(c, "")
  }

  /** Writing a field into a column: `field || null`. */
  function ToColumn(s: string): (c: Option<string>)
    ensures c.None? <==> s == ""
    ensures c.Some? ==> c.value == s
  {
    if s != "" then Some(s) else None
  }

  /** Saving a field and reading it back gives the field. */
  lemma FieldRoundTrip(s: string)
    ensures FromColumn(ToColumn(s)) == s
  {
  }

  /** Reading a column and saving it back gives the column, except that an empty string becomes null. */
  lemma ColumnRoundTrip(c: Option<string>)
    ensures c != Some("") ==> ToColumn(FromColumn(c)) == c
    ensures ToColumn(FromColumn(Some(""))) == None
  {
  }

  predicate IdIs(id: Id, row: ProfileRow) {
    row.id == id
  }

  function ProfilesWithId(rows: seq<ProfileRow>, id: Id): seq<ProfileRow> {
    Filter(rows, (row: ProfileRow) => IdIs(id, row))
  }

  /** `.select(...).eq('id', id).single()`: the row, when exactly one row has this id. */
  function SingleProfile(rows: seq<ProfileRow>, id: Id): (r: Option<ProfileRow>)
    ensures r.Some? <==> |ProfilesWithId(rows, id)| == 1
    ensures r.Some? ==> r.value in rows && r.value.id == id
  {
    var m := ProfilesWithId(rows, id);
    if |m| == 1 then assert m[0] in m; Some(m[0]) else None
  }

  datatype ProfileState = ProfileState(loading: bool, role: Option<string>, form: ProfileForm)

  const InitialProfile := ProfileState(false, None, EmptyForm)

  datatype ProfileLoad = ProfileLoad(state: ProfileState, navigate: Option<Path>)

  /**
   * `fetchUserData`. `profiles` is the profiles table, None when the query
   * fails; a lookup that does not find exactly one row leaves the three
   * fields as they were. Loading ends on every path.
   */
  function LoadProfile(s: ProfileState, session: Option<User>, profiles: Option<seq<ProfileRow>>): (r: ProfileLoad)
    ensures !r.state.loading
    ensures session.None? ==> r == ProfileLoad(s.(loading := false), Some(AuthPage))
    ensures session.Some? ==> r.navigate.None? && r.state.role == Routing.MetaRole(session.value)
    ensures session.Some? ==> r.state.form.email == (if Truthy(session.value.email) then session.value.email.value else "")
    ensures (session.Some? && profiles.Some? && SingleProfile(profiles.value, session.value.id).Some? ==>
      var row := SingleProfile(profiles.value, session.value.id).value;
      r.state.form.name == FromColumn(row.name) && r.state.form.phone == FromColumn(row.phone) &&
      r.state.form.address == FromColumn(row.address))
    ensures (session.Some? && (profiles.None? || SingleProfile(profiles.value, session.value.id).None?) ==>
      r.state.form.name == s.form.name && r.state.form.phone == s.form.phone && r.state.form.address == s.form.address)
  {
    match session
    case None => ProfileLoad(s.(loading := false), Some(AuthPage))
    case Some(u) =>
      var withEmail := s.form.(email := OrElse(u.email, ""));
      var row := if profiles.Some? then SingleProfile(profiles.value, u.id) else None;
      var form := if row.Some? then
          withEmail.(name := FromColumn(row.value.name), phone := FromColumn(row.value.phone),
                     address := FromColumn(row.value.address))
        else withEmail;
      ProfileLoad(ProfileState(false, Routing.MetaRole(u), form), None)
  }

  /** The full-screen loading text shows only while loading and before the e-mail is known. */
  predicate ShowsLoadingScreen(s: ProfileState) {
    s.loading && s.form.email == ""
  }

  /** A signed-in user with an e-mail never sees the loading screen again once the load ends. */
  lemma LoadedPageIsShown(s: ProfileState, u: User, profiles: Option<seq<ProfileRow>>)
    ensures !ShowsLoadingScreen(LoadProfile(s, Some(u), profiles).state)
    ensures Truthy(u.email) ==> LoadProfile(s, Some(u), profiles).state.form.email != ""
  {
  }

  // ---------------------------------------------------------------------
  // Saving
  // ---------------------------------------------------------------------

  /** The row written for the form: each empty field becomes null; `now` stands for the clock. */
  function Saved(row: ProfileRow, f: ProfileForm, now: string): ProfileRow {
    row.(name := ToColumn(f.name), phone := ToColumn(f.phone), address := ToColumn(f.address), updatedAt := Some(now))
  }

  /** `update({...}).eq('id', id)`: every row with that id is rewritten. */
  function UpdateRows(rows: seq<ProfileRow>, id: Id, f: ProfileForm, now: string): (r: seq<ProfileRow>)
    ensures |r| == |rows|
    ensures forall i :: 0 <= i < |rows| ==> r[i] == if rows[i].id == id then Saved(rows[i], f, now) else rows[i]
  {
    if |rows| == 0 then []
    else [if rows[0].id == id then Saved(rows[0], f, now) else rows[0]] + UpdateRows(rows[1..], id, f, now)
  }

  datatype SaveOutcome = UserNotFound | SaveFailed | ProfileSaved

  datatype SaveResult = SaveResult(outcome: SaveOutcome, rows: seq<ProfileRow>)

  /**
   * `handleUpdateProfile`. `user` is the answer of `getUser`; `writeOk` is
   * whether the update succeeds. Without a user nothing is written.
   */
  function SaveProfile(f: ProfileForm, user: Option<User>, rows: seq<ProfileRow>, now: string, writeOk: bool): (r: SaveResult)
    ensures user.None? ==> r == SaveResult(UserNotFound, rows)
    ensures r.outcome != ProfileSaved ==> r.rows == rows
    ensures r.outcome == ProfileSaved <==> user.Some? && writeOk
    ensures (r.outcome == ProfileSaved ==>
      |r.rows| == |rows| &&
      forall i :: 0 <= i < |rows| ==>
        r.rows[i].id == rows[i].id &&
        (rows[i].id != user.value.id ==> r.rows[i] == rows[i]) &&
        (rows[i].id == user.value.id ==> r.rows[i].name == ToColumn(f.name) && r.rows[i].phone == ToColumn(f.phone) &&
                                         r.rows[i].address == ToColumn(f.address)))
  {
    if user.None? then SaveResult(UserNotFound, rows)
    else if !writeOk then SaveResult(SaveFailed, rows)
    else SaveResult(ProfileSaved, UpdateRows(rows, user.value.id, f, now))
  }

  /** Selecting the user's rows after the update is updating the user's rows. */
  lemma {:induction false} UpdateCommutesWithLookup(rows: seq<ProfileRow>, id: Id, f: ProfileForm, now: string)
    ensures ProfilesWithId(UpdateRows(rows, id, f, now), id) == UpdateRows(ProfilesWithId(rows, id), id, f, now)
  {
    if |rows| > 0 {
      var r := UpdateRows(rows, id, f, now);
      assert r[1..] == UpdateRows(rows[1..], id, f, now);
      UpdateCommutesWithLookup(rows[1..], id, f, now);
      if rows[0].id == id {
        assert ProfilesWithId(rows, id) == [rows[0]] + ProfilesWithId(rows[1..], id);
      } else {
        assert ProfilesWithId(rows, id) == ProfilesWithId(rows[1..], id);
      }
    }
  }

  /**
   * Saving and loading again shows the saved fields: the update and the
   * lookup pick the same single row, and each field survives its null
   * round trip.
   */
  lemma SaveThenLoadShowsForm(s: ProfileState, f: ProfileForm, u: User, rows: seq<ProfileRow>, now: string)
    requires |ProfilesWithId(rows, u.id)| == 1
    ensures var saved := SaveProfile(f, Some(u), rows, now, true);
      var loaded := LoadProfile(s, Some(u), Some(saved.rows)).state.form;
      saved.outcome == ProfileSaved &&
      loaded.name == f.name && loaded.phone == f.phone && loaded.address == f.address
  {
    var saved := SaveProfile(f, Some(u), rows, now, true);
    UpdateCommutesWithLookup(rows, u.id, f, now);
    var m := ProfilesWithId(rows, u.id);
    assert UpdateRows(m, u.id, f, now) == [Saved(m[0], f, now)];
    FieldRoundTrip(f.name);
    FieldRoundTrip(f.phone);
    FieldRoundTrip(f.address);
  }

  /** A save without a user writes nothing, whatever the form holds. */
  lemma SaveWithoutUserWritesNothing(f: ProfileForm, rows: seq<ProfileRow>, now: string, writeOk: bool)
    ensures SaveProfile(f, None, rows, now, writeOk).rows == rows
    ensures SaveProfile(f, None, rows, now, writeOk).outcome == UserNotFound
  {
  }
}
