/**
 * The `appointments` table as the handlers of src/routes/appointments.js change it: booking
 * (`POST /book`), a barber adding an appointment for a client (`POST /add`), editing, deleting,
 * and the role filter of the list page. Each of the three writing handlers guards the insert
 * or update with its own slot-conflict query, and the three queries use different keys.
 */
module Appointments {
  import opened JsValues
  import opened Schema

  /** The rows by id and the next auto-increment id. */
  datatype Table = Table(rows: map<int, Appointment>, nextId: int)

  predicate Valid(t: Table) {
    && t.nextId >= 1
    && forall k :: k in t.rows ==> 1 <= k < t.nextId
  }

  /**
   * The body of `POST /book`. `barberId` is the submitted `barber_id` when it is a number and
   * `None` when it is missing, empty or not numeric.
   */
  datatype BookForm = BookForm(barberId: Option<int>, date: string, time: string, description: string)

  /** The body of `POST /add`; `clientId` as in `BookForm`. */
  datatype AddForm = AddForm(clientId: Option<int>, date: string, time: string, description: string)

  /** The body of `POST /edit/:id`. */
  datatype EditForm = EditForm(date: string, time: string, description: string)

  /** `Failed` is the error caught by `POST /add` when no user has the chosen client id. */
  datatype Outcome = Saved | SlotTaken | Failed

  predicate AtSlot(a: Appointment, date: string, time: string) {
    a.date == date && a.time == time
  }

  /** `WHERE date = ? AND time = ? AND barber_id = ?`, with the form's barber; NULL matches nothing. */
  predicate BookConflict(rows: map<int, Appointment>, form: BookForm) {
    exists k :: k in rows && AtSlot(rows[k], form.date, form.time) && form.barberId.Some? && rows[k].barberId == form.barberId
  }

  /** `WHERE date = ? AND time = ? AND client_id = ?`, with the form's client. */
  predicate AddConflict(rows: map<int, Appointment>, form: AddForm) {
    exists k :: k in rows && AtSlot(rows[k], form.date, form.time) && form.clientId.Some? && rows[k].clientId == form.clientId
  }

  /**
   * `WHERE date = ? AND time = ? AND id != ?`: any other appointment, whoever it belongs to. A
   * path id that selects no row is unequal to every id, so every appointment at the slot counts.
   */
  predicate EditConflict(rows: map<int, Appointment>, id: Option<int>, form: EditForm) {
    exists k :: k in rows && AtSlot(rows[k], form.date, form.time) && (id.None? || k != id.value)
  }

  /**
   * The record `POST /book` inserts: a barber books for themself, with no client; anyone else
   * books as the client, with the submitted barber.
   */
  function BookedRecord(user: User, form: BookForm): (a: Appointment)
    ensures a.name == user.fullname && AtSlot(a, form.date, form.time) && a.description == form.description
    ensures IsBarberRole(user) ==> a.barberId == Some(user.id) && a.clientId == None
    ensures !IsBarberRole(user) ==> a.clientId == Some(user.id) && a.barberId == form.barberId
  {
    if IsBarberRole(user) then Appointment(user.fullname, form.date, form.time, form.description, None, Some(user.id))
    else Appointment(user.fullname, form.date, form.time, form.description, Some(user.id), form.barberId)
  }

  /** The table after inserting `a` under the next id. */
  function Insert(t: Table, a: Appointment): (r: Table)
    requires Valid(t)
    ensures Valid(r)
    ensures t.nextId !in t.rows && r.rows == t.rows[t.nextId := a] && r.nextId == t.nextId + 1
  {
    Table(t.rows[t.nextId := a], t.nextId + 1)
  }

  /** `POST /book`: reject a slot the form's barber already has, otherwise insert the record. */
  function BookStep(t: Table, user: User, form: BookForm): (r: (Table, Outcome))
    requires Valid(t)
    ensures Valid(r.0)
    ensures r.1 == SlotTaken <==> BookConflict(t.rows, form)
    ensures r.1 == SlotTaken ==> r.0 == t
    ensures r.1 != SlotTaken ==> r.1 == Saved && r.0 == Insert(t, BookedRecord(user, form))
  {
    if BookConflict(t.rows, form) then (t, SlotTaken)
    else (Insert(t, BookedRecord(user, form)), Saved)
  }

  /**
   * `POST /add`: reject a slot the chosen client already has; otherwise insert an appointment
   * of the current user, as barber, with that client, named after the client. A client id no
   * user has makes `client.fullname` throw, which the handler catches.
   */
  function AddStep(t: Table, users: seq<User>, user: User, form: AddForm): (r: (Table, Outcome))
    requires Valid(t)
    ensures Valid(r.0)
    ensures r.1 == SlotTaken <==> AddConflict(t.rows, form)
    ensures r.1 != Saved ==> r.0 == t
    ensures r.1 == Failed <==> !AddConflict(t.rows, form) && (form.clientId.None? || UserById(users, form.clientId.value).None?)
    ensures r.1 == Saved ==>
      && form.clientId.Some? && UserById(users, form.clientId.value).Some?
      && r.0 == Insert(t, Appointment(UserById(users, form.clientId.value).value.fullname, form.date, form.time,
                                      form.description, form.clientId, Some(user.id)))
  {
    if AddConflict(t.rows, form) then (t, SlotTaken)
    else if form.clientId.None? then (t, Failed)
    else match UserById(users, form.clientId.value)
      case None => (t, Failed)
      case Some(client) =>
        (Insert(t, Appointment(client.fullname, form.date, form.time, form.description, form.clientId, Some(user.id))), Saved)
  }

  /**
   * `POST /edit/:id`: reject a slot any other appointment has; otherwise set date, time and
   * description of that appointment, if it exists.
   */
  function EditStep(t: Table, id: string, form: EditForm): (r: (Table, Outcome))
    requires Valid(t)
    ensures Valid(r.0)
    ensures r.1 == SlotTaken <==> EditConflict(t.rows, PathId(id), form)
    ensures r.1 != SlotTaken ==> r.1 == Saved
    ensures r.1 == SlotTaken ==> r.0 == t
    ensures r.0.nextId == t.nextId && r.0.rows.Keys == t.rows.Keys
    ensures forall k :: k in t.rows && (r.1 == SlotTaken || PathId(id) != Some(k)) ==> r.0.rows[k] == t.rows[k]
    ensures r.1 == Saved && PathId(id).Some? && PathId(id).value in t.rows ==>
      var k := PathId(id).value;
      r.0.rows[k] == t.rows[k].(date := form.date, time := form.time, description := form.description)
  {
    var key := PathId(id);
    if EditConflict(t.rows, key, form) then (t, SlotTaken)
    else if key.Some? && key.value in t.rows then
      var k := key.value;
      (t.(rows := t.rows[k := t.rows[k].(date := form.date, time := form.time, description := form.description)]), Saved)
    else (t, Saved)
  }

  /** `GET /delete/:id`: remove that one appointment. */
  function DeleteStep(t: Table, id: string): (r: Table)
    requires Valid(t)
    ensures Valid(r)
    ensures r.nextId == t.nextId
    ensures PathId(id).Some? ==> r.rows == t.rows - {PathId(id).value}
    ensures PathId(id).None? ==> r == t
  {
    match PathId(id)
    case None => t
    case Some(k) => t.(rows := t.rows - {k})
  }

  /** Whether a nullable user column references an existing user, so that it joins. */
  predicate Joins(users: seq<User>, column: Option<int>) {
    column.Some? && UserById(users, column.value).Some?
  }

  /**
   * The rows of the list page: a barber's appointments whose client joins, or, for anyone
   * else, their appointments as client whose client and barber both join.
   */
  function Listing(t: Table, users: seq<User>, user: User): set<int>
  {
    if IsBarberRole(user) then
      set k | k in t.rows && t.rows[k].barberId == Some(user.id) && Joins(users, t.rows[k].clientId)
    else
      set k | k in t.rows && t.rows[k].clientId == Some(user.id) && Joins(users, t.rows[k].clientId) && Joins(users, t.rows[k].barberId)
  }

  /** The `appointments` table, changed in place by the handlers. */
  class AppointmentTable {
    var rows: map<int, Appointment>
    var nextId: int

    function State(): Table
      reads this
    {
      Table(rows, nextId)
    }

    constructor ()
      ensures State() == Table(map[], 1) && Valid(State())
    {
      rows := map[];
      nextId := 1;
    }

    method Book(user: User, form: BookForm) returns (r: Outcome)
      requires Valid(State())
      modifies this
      ensures Valid(State())
      ensures (State(), r) == BookStep(old(State()), user, form)
    {
      if BookConflict(rows, form) {
        return SlotTaken;
      }
      var record: Appointment;
      if IsBarberRole(user) {
        record := Appointment(user.fullname, form.date, form.time, form.description, None, Some(user.id));
      } else {
        record := Appointment(user.fullname, form.date, form.time, form.description, Some(user.id), form.barberId);
      }
      rows := rows[nextId := record];
      nextId := nextId + 1;
      r := Saved;
    }

    method Add(users: seq<User>, user: User, form: AddForm) returns (r: Outcome)
      requires Valid(State())
      modifies this
      ensures Valid(State())
      ensures (State(), r) == AddStep(old(State()), users, user, form)
    {
      var client := if form.clientId.Some? then UserById(users, form.clientId.value) else None;
      if AddConflict(rows, form) {
        return SlotTaken;
      }
      if client.None? {
        return Failed;
      }
      rows := rows[nextId := Appointment(client.value.fullname, form.date, form.time, form.description, form.clientId, Some(user.id))];
      nextId := nextId + 1;
      r := Saved;
    }

    method Edit(id: string, form: EditForm) returns (r: Outcome)
      requires Valid(State())
      modifies this
      ensures Valid(State())
      ensures (State(), r) == EditStep(old(State()), id, form)
    {
      var key := PathId(id);
      if EditConflict(rows, key, form) {
        return SlotTaken;
      }
      if key.Some? && key.value in rows {
        var a := rows[key.value];
        rows := rows[key.value := a.(date := form.date, time := form.time, description := form.description)];
      }
      r := Saved;
    }

    method Delete(id: string)
      requires Valid(State())
      modifies this
      ensures Valid(State())
      ensures State() == DeleteStep(old(State()), id)
    {
      var key := PathId(id);
      if key.Some? {
        rows := rows - {key.value};
      }
    }
  }

  // -----------------------------------------------------------------------------------------
  // What the guards do and do not promise
  // -----------------------------------------------------------------------------------------

  /** Once a booking with a barber succeeds, any later booking of that barber's slot is rejected. */
  lemma BookedSlotRejectsSameBarber(t: Table, user: User, other: User, form: BookForm, description: string)
    requires Valid(t) && !IsBarberRole(user) && form.barberId.Some?
    requires BookStep(t, user, form).1 == Saved
    ensures BookStep(BookStep(t, user, form).0, other, form.(description := description)) == (BookStep(t, user, form).0, SlotTaken)
  {
    var t1 := BookStep(t, user, form).0;
    assert t1.rows[t.nextId] == BookedRecord(user, form);
    assert t.nextId in t1.rows;
  }

  /**
   * A barber booking without a `barber_id` in the form is never checked against the barber's
   * own appointments: the same barber gets the same slot twice.
   */
  lemma BarberCanDoubleBook(t: Table, barber: User, date: string, time: string)
    requires Valid(t) && IsBarberRole(barber)
    ensures var form := BookForm(None, date, time, "");
      var first := BookStep(t, barber, form);
      var second := BookStep(first.0, barber, form);
      && first.1 == Saved && second.1 == Saved
      && var a := second.0.rows[t.nextId];
         var b := second.0.rows[t.nextId + 1];
         && AtSlot(a, date, time) && AtSlot(b, date, time)
         && a.barberId == b.barberId == Some(barber.id)
  {
  }

  /** After a successful edit, no other appointment has the edited appointment's slot. */
  lemma EditLeavesSlotToItself(t: Table, k: nat, form: EditForm)
    requires Valid(t) && k in t.rows
    requires EditStep(t, NatToString(k), form).1 == Saved
    ensures var r := EditStep(t, NatToString(k), form).0;
      && AtSlot(r.rows[k], form.date, form.time)
      && forall j :: j in r.rows && j != k ==> !AtSlot(r.rows[j], form.date, form.time)
  {
    PathIdOfId(k);
  }

  /** Re-saving an appointment's own slot is allowed when no other appointment has it. */
  lemma EditOwnSlotAllowed(t: Table, k: nat, description: string)
    requires Valid(t) && k in t.rows
    requires forall j :: j in t.rows && j != k ==> !AtSlot(t.rows[j], t.rows[k].date, t.rows[k].time)
    ensures EditStep(t, NatToString(k), EditForm(t.rows[k].date, t.rows[k].time, description)).1 == Saved
  {
    PathIdOfId(k);
  }

  /** The edit rule ignores barbers: another barber's appointment at the slot blocks the edit. */
  lemma EditConflictIgnoresBarber(t: Table, k: nat, j: int, form: EditForm)
    requires Valid(t) && k in t.rows && j in t.rows && j != k
    requires AtSlot(t.rows[j], form.date, form.time) && t.rows[j].barberId != t.rows[k].barberId
    ensures EditStep(t, NatToString(k), form) == (t, SlotTaken)
  {
    PathIdOfId(k);
  }

  /**
   * A path that selects no row (such as "abc") is unequal to every id: any appointment at the
   * slot refuses the edit.
   */
  lemma EditWithoutRowRefusedAtTakenSlot(t: Table, id: string, form: EditForm, j: int)
    requires Valid(t) && PathId(id).None?
    requires j in t.rows && AtSlot(t.rows[j], form.date, form.time)
    ensures EditStep(t, id, form) == (t, SlotTaken)
  {
    assert EditConflict(t.rows, PathId(id), form);
  }

  /** One appointment, edited through the path "abc" at its own slot: the edit is refused. */
  lemma EditAbcRefused(a: Appointment)
    ensures EditStep(Table(map[1 := a], 2), "abc", EditForm(a.date, a.time, "x")) == (Table(map[1 := a], 2), SlotTaken)
  {
    assert !IsRadixDigit('a', 10);
    EditWithoutRowRefusedAtTakenSlot(Table(map[1 := a], 2), "abc", EditForm(a.date, a.time, "x"), 1);
  }

  /** Deleting the appointment a booking inserted restores the table, but for the counter. */
  lemma DeleteAfterBookRestores(t: Table, user: User, form: BookForm)
    requires Valid(t) && BookStep(t, user, form).1 == Saved
    ensures DeleteStep(BookStep(t, user, form).0, NatToString(t.nextId)) == t.(nextId := t.nextId + 1)
  {
    PathIdOfId(t.nextId);
    assert t.rows[t.nextId := BookedRecord(user, form)] - {t.nextId} == t.rows;
  }

  /**
   * A barber's own booking has no client, so the barber's list, which joins on the client,
   * never shows it; nor does a client's list show a booking without a barber.
   */
  lemma UnjoinedBookingsHidden(t: Table, users: seq<User>, user: User, form: BookForm)
    requires Valid(t) && BookStep(t, user, form).1 == Saved
    requires IsBarberRole(user) || form.barberId.None?
    ensures t.nextId !in Listing(BookStep(t, user, form).0, users, user)
  {
  }

  /** A client's booking with an existing barber is on the client's list and the barber's. */
  lemma ClientBookingListed(t: Table, users: seq<User>, client: User, barber: User, form: BookForm)
    requires Valid(t) && !IsBarberRole(client) && IsBarberRole(barber)
    requires form.barberId == Some(barber.id)
    requires UserById(users, client.id).Some? && UserById(users, barber.id).Some?
    requires BookStep(t, client, form).1 == Saved
    ensures t.nextId in Listing(BookStep(t, client, form).0, users, client)
    ensures t.nextId in Listing(BookStep(t, client, form).0, users, barber)
  {
  }
}
