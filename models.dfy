/** The appointment table of appointments/models.py: the record shape, the
    `unique_together` constraint of the table, and the whole-record check
    `Appointment.clean`.

    Times of day are minutes since midnight; doctor ids and dates are opaque
    values compared only for equality. */
module Models {

  import opened Wrappers

  const MinutesPerDay: int := 1440

  /** A `TimeField` value in whole minutes: 0 (00:00) up to 1439 (23:59). */
  type TimeOfDay = m: int | 0 <= m < MinutesPerDay

  /** Primary key of a doctor row (the foreign key `doctor`). */
  type DoctorId = nat

  /** A calendar day (`DateField`); only equality is ever used. */
  type Date = int

  /** 14:00 and 19:00, the opening hours `clean` enforces. */
  const OpeningTime: TimeOfDay := 840
  const ClosingTime: TimeOfDay := 1140

  /** The only appointment length the system knows. */
  const SlotMinutes: int := 30

  /** The default of the `patient_name` CharField, stored when it is never set. */
  const DefaultPatientName: string := ""

  /** One appointment: who sees whom, on which day, from when to when. */
  datatype Appointment = Appointment(
    doctor: DoctorId,
    date: Date,
    startTime: TimeOfDay,
    endTime: TimeOfDay,
    patientName: string)

  /** A stored appointment together with the primary key the table gave it. */
  datatype Row = Row(pk: nat, appt: Appointment)

  /** The columns of `unique_together`. */
  datatype SlotKey = SlotKey(doctor: DoctorId, date: Date, startTime: TimeOfDay, endTime: TimeOfDay)

  function Key(a: Appointment): SlotKey {
    SlotKey(a.doctor, a.date, a.startTime, a.endTime)
  }

  /** Some stored row already uses key `k`. */
  predicate HasKey(rows: seq<Row>, k: SlotKey) {
    exists i :: 0 <= i < |rows| && Key(rows[i].appt) == k
  }

  /** The table constraint: no two rows agree on (doctor, date, start, end). */
  predicate UniqueTogether(rows: seq<Row>) {
    forall i, j :: 0 <= i < j < |rows| ==> Key(rows[i].appt) != Key(rows[j].appt)
  }

  /** Primary keys identify rows. */
  predicate DistinctPks(rows: seq<Row>) {
    forall i, j :: 0 <= i < j < |rows| ==> rows[i].pk != rows[j].pk
  }

  /** Appending a row keeps the table constraint exactly when its key is new,
      which is the test the database makes before it accepts an insert. */
  lemma {:induction false} InsertPreservesUniqueTogether(rows: seq<Row>, r: Row)
    requires UniqueTogether(rows)
    ensures UniqueTogether(rows + [r]) <==> !HasKey(rows, Key(r.appt))
  {
    var rows' := rows + [r];
    if HasKey(rows, Key(r.appt)) {
      var i :| 0 <= i < |rows| && Key(rows[i].appt) == Key(r.appt);
      assert rows'[i] == rows[i] && rows'[|rows|] == r;
    } else {
      forall i, j | 0 <= i < j < |rows'|
        ensures Key(rows'[i].appt) != Key(rows'[j].appt)
      {
        if j < |rows| {
          assert rows'[i] == rows[i] && rows'[j] == rows[j];
        } else {
          assert rows'[i] == rows[i];
        }
      }
    }
  }

  // ---------------------------------------------------------------------
  // Appointment.clean

  /** Start no earlier than 14:00 and end no later than 19:00, both bounds
      inclusive. */
  predicate WithinHours(a: Appointment) {
    a.startTime >= OpeningTime && a.endTime <= ClosingTime
  }

  /** (end.hour*60 + end.minute) - (start.hour*60 + start.minute). */
  function DurationMinutes(a: Appointment): int {
    a.endTime - a.startTime
  }

  /** The filter of `clean`: `b` is an appointment of the same doctor on the
      same day whose interval meets the open interval of `a`. */
  predicate Overlaps(a: Appointment, b: Appointment) {
    a.doctor == b.doctor && a.date == b.date && b.startTime < a.endTime && b.endTime > a.startTime
  }

  /** `.exclude(pk=self.pk)`: only a saved record has a key to exclude; for an
      unsaved one (`pk` is None) nothing is excluded. */
  predicate Excluded(r: Row, selfPk: Option<nat>) {
    selfPk.Some? && r.pk == selfPk.value
  }

  /** Some other stored row overlaps `a`. */
  predicate ConflictsWith(a: Appointment, selfPk: Option<nat>, rows: seq<Row>) {
    exists i :: 0 <= i < |rows| && !Excluded(rows[i], selfPk) && Overlaps(a, rows[i].appt)
  }

  /** The outcome of `clean`: passes, or the first `ValidationError` it raises. */
  datatype CleanResult = Cleaned | OutsideHours | NotThirtyMinutes | ConflictingAppointment

  /** `Appointment.clean` for record `a` with key `selfPk` against table `rows`. */
  function Clean(a: Appointment, selfPk: Option<nat>, rows: seq<Row>): (r: CleanResult)
    ensures r == Cleaned <==>
      WithinHours(a) && DurationMinutes(a) == SlotMinutes && !ConflictsWith(a, selfPk, rows)
    ensures r == OutsideHours <==> a.startTime < OpeningTime || a.endTime > ClosingTime
    ensures r == NotThirtyMinutes <==> WithinHours(a) && a.endTime != a.startTime + SlotMinutes
    ensures r == ConflictingAppointment ==>
      exists i :: 0 <= i < |rows| && rows[i].appt.doctor == a.doctor && rows[i].appt.date == a.date &&
        !Excluded(rows[i], selfPk) && rows[i].appt.startTime < a.endTime && a.startTime < rows[i].appt.endTime
  {
    if !WithinHours(a) then OutsideHours
    else if DurationMinutes(a) != SlotMinutes then NotThirtyMinutes
    else if ConflictsWith(a, selfPk, rows) then ConflictingAppointment
    else Cleaned
  }

  /** The overlap test does not depend on which record is being cleaned. */
  lemma OverlapSymmetric(a: Appointment, b: Appointment)
    ensures Overlaps(a, b) <==> Overlaps(b, a)
  {
  }

  /** A saved record is never its own conflict: with a positive duration it
      does overlap itself, but the key exclusion removes exactly that row, so
      `clean` sees the table as if the record were not in it. */
  lemma {:induction false} SelfNeverConflicts(rows: seq<Row>, k: nat)
    requires DistinctPks(rows)
    requires k < |rows|
    ensures rows[k].appt.startTime < rows[k].appt.endTime ==> Overlaps(rows[k].appt, rows[k].appt)
    ensures ConflictsWith(rows[k].appt, Some(rows[k].pk), rows) <==>
            ConflictsWith(rows[k].appt, None, rows[..k] + rows[k + 1..])
  {
    var a, pk := rows[k].appt, rows[k].pk;
    var others := rows[..k] + rows[k + 1..];
    assert |others| == |rows| - 1;
    // The index of `others` that holds row i of `rows` (i != k), and back.
    forall i | 0 <= i < |rows| && i != k
      ensures (if i < k then others[i] else others[i - 1]) == rows[i]
    {
    }
    forall j | 0 <= j < |others|
      ensures others[j] == rows[if j < k then j else j + 1]
    {
    }
    if ConflictsWith(a, Some(pk), rows) {
      var i :| 0 <= i < |rows| && !Excluded(rows[i], Some(pk)) && Overlaps(a, rows[i].appt);
      assert i != k;
      var j := if i < k then i else i - 1;
      assert others[j] == rows[i];
    }
    if ConflictsWith(a, None, others) {
      var j :| 0 <= j < |others| && Overlaps(a, others[j].appt);
      var i := if j < k then j else j + 1;
      assert others[j] == rows[i];
      assert rows[i].pk != pk by {
        if i < k {
          assert rows[i].pk != rows[k].pk;
        } else {
          assert rows[k].pk != rows[i].pk;
        }
      }
    }
  }

  // ---------------------------------------------------------------------
  // The window check of `clean` as it is written

  /** The two kinds of Python value the window test at models.py:25 orders:
      the `time` held by a field and a `str` literal. */
  datatype PyVal = PyTime(minutes: TimeOfDay) | PyStr(text: string)

  /** The value of a Python boolean expression: a boolean, or the
      `TypeError` its evaluation raises. */
  datatype Comparison = Compared(holds: bool) | TypeErrorRaised

  /** Python's ordering of two strings: code point by code point, a proper
      prefix before the longer string. */
  function StrLess(s: string, t: string): bool
    decreases |s|
  {
    if s == [] then t != []
    else if t == [] then false
    else if s[0] != t[0] then s[0] < t[0]
    else StrLess(s[1..], t[1..])
  }

  /** `x >= y` in Python 3: `time` orders only against `time`, `str` only
      against `str`; for a mixed pair both sides return `NotImplemented` and
      the comparison raises `TypeError`. */
  function PyGe(x: PyVal, y: PyVal): (c: Comparison)
    ensures c.Compared? <==> x.PyTime? == y.PyTime?
    ensures x.PyTime? && y.PyTime? ==> c == Compared(x.minutes >= y.minutes)
  {
    match (x, y)
    case (PyTime(m), PyTime(n)) => Compared(m >= n)
    case (PyStr(u), PyStr(v)) => Compared(!StrLess(u, v))
    case _ => TypeErrorRaised
  }

  /** `x <= y` in Python 3, with the same typing rule as `PyGe`. */
  function PyLe(x: PyVal, y: PyVal): (c: Comparison)
    ensures c.Compared? <==> x.PyTime? == y.PyTime?
    ensures x.PyTime? && y.PyTime? ==> c == Compared(x.minutes <= y.minutes)
  {
    match (x, y)
    case (PyTime(m), PyTime(n)) => Compared(m <= n)
    case (PyStr(u), PyStr(v)) => Compared(!StrLess(v, u))
    case _ => TypeErrorRaised
  }

  /** `left and right`: an exception in the left operand propagates, a false
      left operand stops evaluation, otherwise the right operand decides. */
  function PyAnd(left: Comparison, right: Comparison): (c: Comparison)
    ensures left == TypeErrorRaised ==> c == TypeErrorRaised
    ensures left == Compared(false) ==> c == Compared(false)
    ensures left == Compared(true) ==> c == right
  {
    match left
    case TypeErrorRaised => TypeErrorRaised
    case Compared(b) => if b then right else Compared(false)
  }

  /** `not (...)`: negates a verdict and lets an exception through. */
  function PyNot(c: Comparison): (r: Comparison)
    ensures r.Compared? <==> c.Compared?
    ensures c.Compared? ==> r.holds == !c.holds
  {
    match c
    case TypeErrorRaised => TypeErrorRaised
    case Compared(b) => Compared(!b)
  }

  /** `self.start_time >= "14:00" and self.end_time <= "19:00"`, with the
      fields holding `time` values. The left comparison already mixes `time`
      and `str`, so the whole test raises for every record. */
  function WindowCheckAsWritten(a: Appointment): (c: Comparison)
    ensures c == TypeErrorRaised
  {
    PyAnd(PyGe(PyTime(a.startTime), PyStr("14:00")), PyLe(PyTime(a.endTime), PyStr("19:00")))
  }

  /** The outcome of `clean` as written: it either finishes with the verdict
      of `Clean`'s three checks, or the `TypeError` of the window test
      escapes before the duration and overlap checks are reached. */
  datatype CleanAsWrittenResult = Finished(result: CleanResult) | TypeErrorEscapes

  /** `Appointment.clean` exactly as written: the window condition of
      models.py:25 evaluated with Python's semantics, then the duration and
      overlap checks. It never finishes, so it never accepts a record. */
  function CleanAsWritten(a: Appointment, selfPk: Option<nat>, rows: seq<Row>): (r: CleanAsWrittenResult)
    ensures r == TypeErrorEscapes
    ensures r != Finished(Cleaned)
  {
    match PyNot(WindowCheckAsWritten(a))
    case TypeErrorRaised => TypeErrorEscapes
    case Compared(outside) =>
      if outside then Finished(OutsideHours)
      else if DurationMinutes(a) != SlotMinutes then Finished(NotThirtyMinutes)
      else if ConflictsWith(a, selfPk, rows) then Finished(ConflictingAppointment)
      else Finished(Cleaned)
  }

  /** The counterexample: the 14:00-14:30 slot on an empty table passes the
      intended `Clean`, while `clean` as written raises for it. */
  lemma WindowCheckAsWrittenNeverAgrees(a: Appointment)
    requires a.startTime == OpeningTime && a.endTime == OpeningTime + SlotMinutes
    ensures WithinHours(a) && Clean(a, None, []) == Cleaned
    ensures WindowCheckAsWritten(a) != Compared(WithinHours(a))
    ensures CleanAsWritten(a, None, []) == TypeErrorEscapes
  {
  }
}
