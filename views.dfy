/** The booking endpoint of appointments/views.py: the allowed start times,
    the end-time computation, the order of the request checks, the
    pre-insert conflict query and the insertion into the appointment table
    (`AppointmentBooking.create`). */
module Views {

  import opened Wrappers
  import opened Models

  /** `ALLOWED_START_TIMES`: 14:00, 14:30, ..., 18:00. */
  const AllowedStartTimes: seq<TimeOfDay> := [840, 870, 900, 930, 960, 990, 1020, 1050, 1080]

  /** The last allowed start, 18:00. */
  const LastStart: TimeOfDay := 1080

  /** `validate_start_time` passes: a membership test over the constant list. */
  predicate ValidStartTime(t: TimeOfDay)
    ensures ValidStartTime(t) ==> OpeningTime <= t <= LastStart && t % SlotMinutes == 0
  {
    t in AllowedStartTimes
  }

  /** The list is exactly the half hours from 14:00 to 18:00; in particular
      13:30 and 18:30 are refused. */
  lemma AllowedStartTimesAreHalfHours(t: TimeOfDay)
    ensures ValidStartTime(t) <==> OpeningTime <= t <= LastStart && t % SlotMinutes == 0
    ensures !ValidStartTime(810) && !ValidStartTime(1110)
  {
    if OpeningTime <= t <= LastStart && t % SlotMinutes == 0 {
      var k := (t - OpeningTime) / SlotMinutes;
      assert t == OpeningTime + SlotMinutes * k;
      assert 0 <= k <= 8;
      assert t == AllowedStartTimes[k];
    }
  }

  /** `(datetime.combine(date, start) + timedelta(minutes=30)).time()`: the
      clock time half an hour later, wrapping past midnight. */
  function EndTime(start: TimeOfDay): (end: TimeOfDay)
    ensures start + SlotMinutes < MinutesPerDay ==> end == start + SlotMinutes
    ensures start + SlotMinutes >= MinutesPerDay ==> end == start + SlotMinutes - MinutesPerDay
  {
    (start + SlotMinutes) % MinutesPerDay
  }

  /** For an allowed start the wrap never happens: the slot ends half an hour
      later on the same day, at 18:30 at the latest. */
  lemma AllowedSlotEnd(s: TimeOfDay)
    requires ValidStartTime(s)
    ensures EndTime(s) == s + SlotMinutes
    ensures s < EndTime(s) <= LastStart + SlotMinutes
  {
    AllowedStartTimesAreHalfHours(s);
  }

  /** The shape of every record the booking path writes. */
  predicate Booked(a: Appointment) {
    ValidStartTime(a.startTime) && a.endTime == a.startTime + SlotMinutes
  }

  predicate BookedOnly(rows: seq<Row>) {
    forall i :: 0 <= i < |rows| ==> Booked(rows[i].appt)
  }

  /** Every stored row carries the default patient name, since the booking
      path never sets it. */
  predicate DefaultNamesOnly(rows: seq<Row>) {
    forall i :: 0 <= i < |rows| ==> rows[i].appt.patientName == DefaultPatientName
  }

  /** The filter of the pre-insert conflict query (views.py:76-82). */
  predicate MatchesConflictFilter(a: Appointment, doctor: DoctorId, date: Date,
                                  start: TimeOfDay, end: TimeOfDay, patient: string) {
    a.doctor == doctor && a.date == date && a.startTime < end && a.startTime >= start &&
    a.patientName == patient
  }

  /** `conflicting_appointments.exists()`. */
  predicate ViewConflict(rows: seq<Row>, doctor: DoctorId, date: Date,
                         start: TimeOfDay, end: TimeOfDay, patient: string) {
    exists i :: 0 <= i < |rows| && MatchesConflictFilter(rows[i].appt, doctor, date, start, end, patient)
  }

  /** The result of a `strptime` call, which is not part of this model. */
  datatype Parse<T> = Malformed | Ok(value: T)

  /** The four request fields `create` reads. The date is given already
      parsed; the start time is either absent or the result of parsing it. */
  datatype Request = Request(
    doctor: DoctorId,
    date: Parse<Date>,
    startTime: Option<Parse<TimeOfDay>>,
    patientName: Option<string>)

  /** The responses of `create`, one per return path. */
  datatype Outcome =
    | MissingPatientName
    | MissingStartTime
    | BadDate
    | BadTime
    | InvalidSlot
    | Conflict
    | ConflictServerError
    | Created(appt: Appointment)

  /** The record `create` builds for an accepted request: `patient_name` is
      never set, so it is stored with the field's default. */
  function Candidate(doctor: DoctorId, date: Date, start: TimeOfDay): (a: Appointment)
    ensures Key(a) == SlotKey(doctor, date, start, EndTime(start))
    ensures a.patientName == DefaultPatientName
    ensures ValidStartTime(start) ==> Booked(a) && WithinHours(a)
  {
    Appointment(doctor, date, start, EndTime(start), DefaultPatientName)
  }

  /** What `create` answers for `req` against table `rows`. The first failing
      check decides; only absence (not the empty string) counts as a missing
      field. */
  function CreateOutcome(rows: seq<Row>, req: Request): (o: Outcome)
    ensures o == MissingPatientName <==> req.patientName.None?
    ensures o == MissingStartTime <==> req.patientName.Some? && req.startTime.None?
    ensures o == BadDate <==> req.patientName.Some? && req.startTime.Some? && req.date.Malformed?
    ensures o == BadTime <==>
      req.patientName.Some? && req.date.Ok? && req.startTime == Some(Malformed)
    ensures o == InvalidSlot <==>
      req.patientName.Some? && req.date.Ok? && req.startTime.Some? && req.startTime.value.Ok? &&
      !ValidStartTime(req.startTime.value.value)
    ensures o.Created? ==>
      && req.patientName.Some?
      && o.appt.doctor == req.doctor
      && req.date == Ok(o.appt.date)
      && req.startTime == Some(Ok(o.appt.startTime))
      && Booked(o.appt)
      && o.appt.endTime <= LastStart + SlotMinutes
      && o.appt.patientName == DefaultPatientName
      && !HasKey(rows, Key(o.appt))
  {
    if req.patientName.None? then MissingPatientName
    else if req.startTime.None? then MissingStartTime
    else if req.date.Malformed? then BadDate
    else if req.startTime.value.Malformed? then BadTime
    else
      var start := req.startTime.value.value;
      if !ValidStartTime(start) then InvalidSlot
      else
        AllowedSlotEnd(start);
        var appt := Candidate(req.doctor, req.date.value, start);
        if ViewConflict(rows, req.doctor, req.date.value, start, appt.endTime, req.patientName.value) then
          Conflict
        else if HasKey(rows, Key(appt)) then
          ConflictServerError
        else
          Created(appt)
  }

  // ---------------------------------------------------------------------
  // Relating the view's filter, the table constraint and `clean`

  /** Two booked slots of one doctor on one day overlap in the sense of
      `clean` exactly when they start together, which is also exactly when
      the view's half-open range filter for one of them matches the other. */
  lemma BookedOverlapIffSameStart(a: Appointment, b: Appointment)
    requires Booked(a) && Booked(b)
    requires a.doctor == b.doctor && a.date == b.date
    ensures Overlaps(a, b) <==> a.startTime == b.startTime
    ensures Overlaps(a, b) <==> a.startTime <= b.startTime < a.startTime + SlotMinutes
  {
    AllowedStartTimesAreHalfHours(a.startTime);
    AllowedStartTimesAreHalfHours(b.startTime);
    var i, j := (a.startTime - OpeningTime) / SlotMinutes, (b.startTime - OpeningTime) / SlotMinutes;
    assert a.startTime == OpeningTime + SlotMinutes * i;
    assert b.startTime == OpeningTime + SlotMinutes * j;
  }

  /** Every record the booking path writes passes the window and duration
      checks of `clean`. */
  lemma BookedPassesWindowAndDuration(a: Appointment)
    requires Booked(a)
    ensures WithinHours(a) && DurationMinutes(a) == SlotMinutes
    ensures Clean(a, None, []) == Cleaned
  {
    AllowedStartTimesAreHalfHours(a.startTime);
  }

  /** On a table of booked rows, a key collision for a booked record is the
      same thing as a `clean` conflict for it. */
  lemma {:induction false} KeyCollisionIffCleanConflict(rows: seq<Row>, a: Appointment)
    requires BookedOnly(rows) && Booked(a)
    ensures HasKey(rows, Key(a)) <==> ConflictsWith(a, None, rows)
  {
    if HasKey(rows, Key(a)) {
      var i :| 0 <= i < |rows| && Key(rows[i].appt) == Key(a);
      BookedOverlapIffSameStart(a, rows[i].appt);
    }
    if ConflictsWith(a, None, rows) {
      var i :| 0 <= i < |rows| && Overlaps(a, rows[i].appt);
      BookedOverlapIffSameStart(a, rows[i].appt);
      assert Key(rows[i].appt) == Key(a);
    }
  }

  /** A table that holds only booked rows and keeps `unique_together` is
      clean: every row passes `clean` against the whole table. */
  lemma {:induction false} BookedLedgerIsClean(rows: seq<Row>, k: nat)
    requires UniqueTogether(rows) && BookedOnly(rows) && DistinctPks(rows)
    requires k < |rows|
    ensures Clean(rows[k].appt, Some(rows[k].pk), rows) == Cleaned
  {
    var a := rows[k].appt;
    BookedPassesWindowAndDuration(a);
    forall i | 0 <= i < |rows| && !Excluded(rows[i], Some(rows[k].pk))
      ensures !Overlaps(a, rows[i].appt)
    {
      if a.doctor == rows[i].appt.doctor && a.date == rows[i].appt.date {
        BookedOverlapIffSameStart(a, rows[i].appt);
        if i < k {
          assert Key(rows[i].appt) != Key(rows[k].appt);
        } else if k < i {
          assert Key(rows[k].appt) != Key(rows[i].appt);
        }
      }
    }
  }

  /** The booking path refuses a well-formed request for an allowed slot
      exactly when `clean` would report a conflict for the new record, so the
      patient-scoped filter never lets a double booking through. What it
      decides is only which outcome is given: the client error when the
      filter matches, the server error when only the table constraint does. */
  lemma {:induction false} BookingRejectsExactlyCleanConflicts(rows: seq<Row>, req: Request)
    requires BookedOnly(rows)
    requires req.patientName.Some? && req.date.Ok? && req.startTime.Some? && req.startTime.value.Ok?
    requires ValidStartTime(req.startTime.value.value)
    ensures var cand := Candidate(req.doctor, req.date.value, req.startTime.value.value);
      && (CreateOutcome(rows, req) == Conflict <==>
            ViewConflict(rows, req.doctor, req.date.value, cand.startTime, cand.endTime, req.patientName.value))
      && (CreateOutcome(rows, req) in {Conflict, ConflictServerError} <==> ConflictsWith(cand, None, rows))
      && (CreateOutcome(rows, req) == ConflictServerError <==>
            ConflictsWith(cand, None, rows) &&
            !ViewConflict(rows, req.doctor, req.date.value, cand.startTime, cand.endTime, req.patientName.value))
  {
    var start := req.startTime.value.value;
    var cand := Candidate(req.doctor, req.date.value, start);
    AllowedSlotEnd(start);
    assert Booked(cand);
    KeyCollisionIffCleanConflict(rows, cand);
    if ViewConflict(rows, req.doctor, req.date.value, start, cand.endTime, req.patientName.value) {
      var i :| 0 <= i < |rows| &&
        MatchesConflictFilter(rows[i].appt, req.doctor, req.date.value, start, cand.endTime, req.patientName.value);
      BookedOverlapIffSameStart(cand, rows[i].appt);
      assert Overlaps(cand, rows[i].appt);
    }
  }

  /** Booking the same request again right after it was accepted is refused,
      and because the stored record has the default patient name, the
      patient-scoped filter misses it unless the request's own name is that
      default: a repeated booking normally surfaces as the server error. */
  lemma {:induction false} RepeatBookingOutcome(rows: seq<Row>, req: Request, pk: nat)
    requires CreateOutcome(rows, req).Created?
    ensures var again := CreateOutcome(rows + [Row(pk, CreateOutcome(rows, req).appt)], req);
      again == if req.patientName == Some(DefaultPatientName) then Conflict else ConflictServerError
  {
    var a := CreateOutcome(rows, req).appt;
    var rows' := rows + [Row(pk, a)];
    var start, date, patient := a.startTime, a.date, req.patientName.value;
    assert rows'[|rows|].appt == a;
    assert HasKey(rows', Key(a));
    assert !ViewConflict(rows, req.doctor, date, start, a.endTime, patient);
    if patient == DefaultPatientName {
      assert MatchesConflictFilter(rows'[|rows|].appt, req.doctor, date, start, a.endTime, patient);
    } else {
      forall i | 0 <= i < |rows'|
        ensures !MatchesConflictFilter(rows'[i].appt, req.doctor, date, start, a.endTime, patient)
      {
        if i < |rows| {
          assert rows'[i] == rows[i];
        }
      }
    }
  }

  /** Any request for a slot whose key is already taken is refused. Stored
      rows carry the default patient name, so the patient-scoped filter
      matches only when the request's name is that default; every other
      repeat of a booked slot surfaces as the server error. */
  lemma {:induction false} TakenSlotOutcome(rows: seq<Row>, req: Request)
    requires DefaultNamesOnly(rows)
    requires req.patientName.Some? && req.date.Ok? && req.startTime.Some? && req.startTime.value.Ok?
    requires ValidStartTime(req.startTime.value.value)
    requires HasKey(rows, Key(Candidate(req.doctor, req.date.value, req.startTime.value.value)))
    ensures CreateOutcome(rows, req) ==
      if req.patientName == Some(DefaultPatientName) then Conflict else ConflictServerError
  {
    var start := req.startTime.value.value;
    var cand := Candidate(req.doctor, req.date.value, start);
    AllowedSlotEnd(start);
    var k :| 0 <= k < |rows| && Key(rows[k].appt) == Key(cand);
    if req.patientName == Some(DefaultPatientName) {
      assert MatchesConflictFilter(rows[k].appt, req.doctor, req.date.value, start, cand.endTime, DefaultPatientName);
    } else {
      forall i | 0 <= i < |rows|
        ensures !MatchesConflictFilter(rows[i].appt, req.doctor, req.date.value, start, cand.endTime, req.patientName.value)
      {
      }
    }
  }

  /** Accepting a request keeps the default-name invariant. */
  lemma {:induction false} AcceptKeepsDefaultNames(rows: seq<Row>, req: Request, pk: nat)
    requires DefaultNamesOnly(rows)
    requires CreateOutcome(rows, req).Created?
    ensures DefaultNamesOnly(rows + [Row(pk, CreateOutcome(rows, req).appt)])
  {
    var rows' := rows + [Row(pk, CreateOutcome(rows, req).appt)];
    forall i | 0 <= i < |rows'|
      ensures rows'[i].appt.patientName == DefaultPatientName
    {
      if i < |rows| {
        assert rows'[i] == rows[i];
      }
    }
  }

  /** Accepting a request keeps every reachable-state invariant of the table. */
  lemma {:induction false} AcceptPreservesInvariant(rows: seq<Row>, req: Request, pk: nat)
    requires UniqueTogether(rows) && BookedOnly(rows)
    requires CreateOutcome(rows, req).Created?
    ensures UniqueTogether(rows + [Row(pk, CreateOutcome(rows, req).appt)])
    ensures BookedOnly(rows + [Row(pk, CreateOutcome(rows, req).appt)])
  {
    var r := Row(pk, CreateOutcome(rows, req).appt);
    InsertPreservesUniqueTogether(rows, r);
    var rows' := rows + [r];
    forall i | 0 <= i < |rows'|
      ensures Booked(rows'[i].appt)
    {
      if i < |rows| {
        assert rows'[i] == rows[i];
      }
    }
  }

  // ---------------------------------------------------------------------
  // The appointment table as the booking endpoint writes it

  /** The appointment table in memory. Only `Create` writes it, so besides
      the table constraint every row has the booked shape. */
  class Ledger {
    var rows: seq<Row>
    var nextPk: nat

    ghost predicate Valid()
      reads this
    {
      && UniqueTogether(rows)
      && BookedOnly(rows)
      && DefaultNamesOnly(rows)
      && DistinctPks(rows)
      && (forall i :: 0 <= i < |rows| ==> rows[i].pk < nextPk)
    }

    /** An empty table. */
    constructor ()
      ensures Valid()
      ensures rows == [] && nextPk == 1
    {
      rows := [];
      nextPk := 1;
    }

    /** The pre-insert conflict query, one row at a time. */
    method FindConflict(doctor: DoctorId, date: Date, start: TimeOfDay, end: TimeOfDay, patient: string)
      returns (found: bool)
      ensures found <==> ViewConflict(rows, doctor, date, start, end, patient)
    {
      found := false;
      var i := 0;
      while i < |rows|
        invariant 0 <= i <= |rows|
        invariant found <==> exists j :: 0 <= j < i && MatchesConflictFilter(rows[j].appt, doctor, date, start, end, patient)
      {
        if MatchesConflictFilter(rows[i].appt, doctor, date, start, end, patient) {
          found := true;
        }
        i := i + 1;
      }
    }

    /** The table's uniqueness test on insert. */
    method KeyTaken(k: SlotKey) returns (taken: bool)
      ensures taken <==> HasKey(rows, k)
    {
      taken := false;
      var i := 0;
      while i < |rows|
        invariant 0 <= i <= |rows|
        invariant taken <==> exists j :: 0 <= j < i && Key(rows[j].appt) == k
      {
        if Key(rows[i].appt) == k {
          taken := true;
        }
        i := i + 1;
      }
    }

    /** `appointment.save()`: insert a booked record under the next primary
        key, or refuse it (`IntegrityError`) when its key is taken. */
    method Save(a: Appointment) returns (saved: bool)
      requires Valid() && Booked(a) && a.patientName == DefaultPatientName
      modifies this
      ensures Valid()
      ensures saved <==> !HasKey(old(rows), Key(a))
      ensures rows == if saved then old(rows) + [Row(old(nextPk), a)] else old(rows)
      ensures nextPk == if saved then old(nextPk) + 1 else old(nextPk)
    {
      var taken := KeyTaken(Key(a));
      if taken {
        return false;
      }
      InsertPreservesUniqueTogether(rows, Row(nextPk, a));
      var rows' := rows + [Row(nextPk, a)];
      assert forall i :: 0 <= i < |rows| ==> rows'[i] == rows[i];
      rows, nextPk := rows', nextPk + 1;
      saved := true;
    }

    /** `AppointmentBooking.create`: the checks in order, then one insert.
        Every refusal leaves the table as it was; acceptance appends exactly
        the accepted record. */
    method Create(req: Request) returns (o: Outcome)
      requires Valid()
      modifies this
      ensures Valid()
      ensures o == CreateOutcome(old(rows), req)
      ensures o.Created? ==> rows == old(rows) + [Row(old(nextPk), o.appt)] && nextPk == old(nextPk) + 1
      ensures !o.Created? ==> rows == old(rows) && nextPk == old(nextPk)
    {
      if req.patientName.None? {
        return MissingPatientName;
      }
      if req.startTime.None? {
        return MissingStartTime;
      }
      if req.date.Malformed? {
        return BadDate;
      }
      if req.startTime.value.Malformed? {
        return BadTime;
      }
      var date, start := req.date.value, req.startTime.value.value;
      if !ValidStartTime(start) {
        return InvalidSlot;
      }
      var end := EndTime(start);
      var conflict := FindConflict(req.doctor, date, start, end, req.patientName.value);
      if conflict {
        return Conflict;
      }
      var appt := Appointment(req.doctor, date, start, end, DefaultPatientName);
      AllowedSlotEnd(start);
      var saved := Save(appt);
      if !saved {
        return ConflictServerError;
      }
      return Created(appt);
    }
  }
}
