# Appointment booking: a Dafny model

This project models the booking core of a small out-patient scheduling
backend. Patients book 30-minute slots with a doctor. The booking endpoint
(`AppointmentBooking.create`) checks the request field by field and stops at
the first failure. It then runs a conflict query against the appointment
table and inserts one record. The table itself enforces a uniqueness
constraint on (doctor, date, start time, end time). Separately, the
`Appointment` model has a whole-record check, `clean`, that tests opening
hours, duration and true interval overlap.

Times are minutes since midnight (0..1439). Doctor ids and dates are opaque
values compared only for equality. The appointment table is an in-memory
sequence of rows, each with its primary key.

- `wrappers.dfy`: `Option`.
- `models.dfy` (module `Models`, appointments/models.py): the record, the
  `unique_together` constraint, `clean`, and the window check as written.
- `views.dfy` (module `Views`, appointments/views.py): the allowed start
  times, the end-time computation, the decision function `CreateOutcome`,
  and the class `Ledger` whose `Create` method performs the booking on the
  table in place. The lemmas that relate the view's filter, the table
  constraint and `clean` live here too.

Behaviour kept as the code has it:

- Only an absent `patient_name` is refused; an empty string passes.
- The conflict query is restricted to the request's patient name. The
  inserted record never sets `patient_name`, so it is stored with the empty
  default. A repeated booking of a slot is therefore normally caught by the
  table constraint, and it yields the server-error outcome
  (`TakenSlotOutcome`, `RepeatBookingOutcome`).
- Because every booked slot starts on a half hour and lasts 30 minutes, two
  booked slots overlap exactly when they start together. The table
  constraint therefore catches every overlap the intended `Models.Clean`
  would report. The patient-scoped filter never lets a double booking
  through; it only decides which refusal is given (`BookingRejectsExactlyCleanConflicts`).
- The end time is computed on a full date-time and truncated back to a
  clock time, so it wraps past midnight (`EndTime`). For allowed starts it
  never wraps (`AllowedSlotEnd`).
- `clean` is not called on the booking path (a plain `save()` does not run
  full validation). It is a standalone function over a record and the table.
- A refused start time is reported as `InvalidSlot`. In the code,
  `validate_start_time` raises a Django `ValidationError` that the endpoint
  does not catch, so this refusal reaches the client as an unhandled error
  rather than a 400 response. No table change happens either way.
- A uniqueness failure on insert is its own server-error outcome,
  `ConflictServerError`, distinct from the client-side `Conflict`.

## Model

| member | source | states |
|---|---|---|
| `Views.ValidStartTime` | appointments/views.py:28-30 | membership of a start time in the allowed list; a member is a half hour between 14:00 and 18:00 |
| `Views.EndTime` | appointments/views.py:72-73 | the clock time 30 minutes after the start: the start plus 30 when that stays before midnight, otherwise wrapped into the next day |
| `Views.Candidate` | appointments/views.py:91-96 | the record built for an accepted request: its key is the request's doctor, date, start and computed end; its patient name is the default; for an allowed start it is a booked slot inside opening hours |
| `Views.MatchesConflictFilter` | appointments/views.py:76-82 | one row matches the view's query: same doctor, date and patient name, and a start in [start, end) |
| `Views.ViewConflict` | appointments/views.py:76-84 | the view's query finds at least one matching row |
| `Models.Overlaps` | appointments/models.py:34-38 | the filter of `clean`: same doctor and date, and the other row starts before this record ends and ends after it starts |
| `Models.Excluded` | appointments/models.py:39 | `.exclude(pk=self.pk)` removes a row iff the record has a key and the row has that key; an unsaved record excludes nothing |
| `Models.ConflictsWith` | appointments/models.py:34-41 | some row that is not excluded overlaps the record |
| `Views.AllowedStartTimesAreHalfHours` | appointments/views.py:15-30 | a start time passes `validate_start_time` iff it is a multiple of 30 minutes between 14:00 and 18:00 inclusive; 13:30 and 18:30 are refused |
| `Views.AllowedSlotEnd` | appointments/views.py:71-73 | for every allowed start s, the computed end is exactly s + 30 on the same day, after s and no later than 18:30 |
| `Views.CreateOutcome` | appointments/views.py:32-108 | the checks apply in the code's order and the first failure wins: a missing patient name is refused iff it is absent; a missing start time iff the name is present and the start time absent; a bad date, then a bad time, then an invalid slot follow in that order. An accepted record carries the request's doctor, date and start, ends 30 minutes later, has the default patient name, and has a key not yet in the table |
| `Views.Ledger.FindConflict` | appointments/views.py:76-84 | the pre-insert query finds a row iff some row has the same doctor, date and patient name and a start in [start, end) |
| `Views.Ledger.KeyTaken` | appointments/models.py:45 | reports whether the (doctor, date, start, end) key is already used by a row |
| `Views.Ledger.Save` | appointments/views.py:91-104 | the insert succeeds iff the record's key is new; on success exactly one row is appended under the next primary key; on failure the table is unchanged; the table invariant is kept |
| `Views.Ledger.Create` | appointments/views.py:32-108 | the outcome is `CreateOutcome` of the table before the call; every refusal, including both conflict outcomes, leaves the table unchanged; acceptance appends exactly the accepted record; earlier rows are unchanged; the table invariant (uniqueness, booked shape, default patient name, distinct keys) holds in every reachable state |
| `Views.Ledger.constructor` | appointments/models.py:13-18 | the table starts empty and satisfies its invariant |
| `Views.AcceptPreservesInvariant` | appointments/views.py:90-99 | appending an accepted record keeps the uniqueness constraint and keeps every row an allowed start with a 30-minute duration |
| `Views.TakenSlotOutcome` | appointments/views.py:76-104 | on a table whose rows all carry the default patient name, every well-formed request for an allowed slot whose key is taken gets the plain conflict outcome iff its patient name is the empty default, and the server-error outcome otherwise |
| `Views.AcceptKeepsDefaultNames` | appointments/views.py:91-99 | appending an accepted record keeps every stored row at the default patient name |
| `Views.RepeatBookingOutcome` | appointments/views.py:76-104 | right after a request is accepted, the same request is refused: with the plain conflict outcome if its patient name is the empty default, otherwise with the server-error outcome from the uniqueness constraint |
| `Views.BookingRejectsExactlyCleanConflicts` | appointments/views.py:75-104 | on a table of booked rows, a well-formed request for an allowed slot gets the plain conflict outcome iff some row has the same doctor, date and patient name and a start in [s, s+30); it is refused with one of the two conflict outcomes iff the intended `Models.Clean` would report an overlap for the new record; it gets the server-error outcome iff the overlap exists but the patient-scoped filter misses it |
| `Views.BookedOverlapIffSameStart` | appointments/models.py:33-38 | for two booked slots of one doctor and day, the overlap test of `clean` holds iff their starts are equal, iff the view's filter range [s, s+30) contains the other start |
| `Views.BookedPassesWindowAndDuration` | appointments/models.py:24-31 | every record the booking path can write passes the window and duration checks of the intended `Models.Clean` |
| `Views.KeyCollisionIffCleanConflict` | appointments/models.py:33-45 | on a table of booked rows, a booked record collides with the uniqueness key iff the overlap query of `clean` finds a row for it |
| `Views.BookedLedgerIsClean` | appointments/models.py:23-45 | every row of a reachable table passes the intended `Models.Clean` against the whole table, its own key excluded |
| `Models.Clean` | appointments/models.py:23-42 | passes iff start ≥ 14:00 and end ≤ 19:00 (both inclusive), the duration is exactly 30 minutes, and no other row overlaps; the window is checked first, then the duration; a conflict names a row of the same doctor and day, not the record itself, with `other.start < end` and `other.end > start` |
| `Models.OverlapSymmetric` | appointments/models.py:37-38 | the overlap test gives the same answer with the two appointments swapped |
| `Models.SelfNeverConflicts` | appointments/models.py:33-39 | a saved record with a positive duration overlaps itself, yet the key exclusion makes the overlap query of `clean` judge it exactly as if its own row were absent from the table |
| `Models.InsertPreservesUniqueTogether` | appointments/models.py:44-45 | appending a row to a table that satisfies the uniqueness constraint keeps it satisfied iff the new row's key is not already present |
| `Models.PyGe` | appointments/models.py:25 | Python's `>=` gives a verdict iff both operands are times or both are strings; on two times it is the order of the minutes; a time against a string raises `TypeError` |
| `Models.PyLe` | appointments/models.py:25 | Python's `<=` with the same typing rule: a verdict iff the operand types agree, the order of the minutes on two times, `TypeError` otherwise |
| `Models.PyAnd` | appointments/models.py:25 | Python's `and`: an exception in the left operand propagates, a false left operand yields false without the right one, a true left operand yields the right one |
| `Models.PyNot` | appointments/models.py:25 | Python's `not`: negates a verdict and passes an exception through |
| `Models.WindowCheckAsWritten` | appointments/models.py:25 | the window condition as written, built from the time fields and the two string literals with Python's comparison and `and`, raises `TypeError` for every record |
| `Models.CleanAsWritten` | appointments/models.py:23-42 | `clean` as written, with the window test raising before the duration and overlap checks, ends in the escaping `TypeError` for every record, key and table, so it never accepts a record |
| `Models.WindowCheckAsWrittenNeverAgrees` | appointments/models.py:24-26 | the 14:00-14:30 slot on an empty table passes the intended `Clean`, but the window test as written gives no verdict for it and `clean` as written raises |

## Findings

| source | as written | input that shows it | evidently intended | confidence | as-written member | corrected member |
|---|---|---|---|---|---|---|
| appointments/models.py:25 | orders the `time` fields against the string literals "14:00" and "19:00"; Python 3 raises `TypeError` for that comparison | any record, e.g. start 14:00, end 14:30 | start ≥ 14:00 and end ≤ 19:00 compared as times | high; not executed | `Models.WindowCheckAsWrittenNeverAgrees` | `Models.Clean` |

## Left out

- HTTP details: response bodies, status codes and headers are reduced to the `Outcome` datatype.
- Date and time parsing (`strptime` with `%Y-%m-%d` and `%H:%M`) is a library outside the model; requests carry its result as `Malformed` or `Ok(value)`.
- An absent `date` field makes the date parse raise an uncaught `TypeError`; requests cannot express an absent date.
- An absent or unknown `doctor` id makes the insert fail on the foreign key; doctor existence, foreign keys and the unused `max_patients` field are not modelled, and the doctor id is an opaque number.
- `DoctorList` and `DoctorDetail` (appointments/views.py:110-116) are plain read endpoints; appointments/serializers.py is not part of this model beyond the fields a created record carries.
- Concurrency: the check-then-insert race is not modelled; the model is sequential and the uniqueness constraint is a check at insertion time.
- Seconds in stored times: the model keeps whole minutes only, which is all the booking path writes.
- Primary keys: the table hands out increasing keys and a refused insert uses none; real databases may skip values, which nothing here depends on.
- ORM internals and `__str__` formatting.
