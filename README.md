# Clinic appointment booking — a Dafny model

This project models the booking path of a small clinic-appointment web app.
It covers the Express back end's patient and appointment handlers, the
available-slot listing and the appointment lookup (`backend/server.js`). It
covers the script that regenerates a month of time slots
(`backend/generate_slot.js`). On the front end it covers the logic of the
booking page (12-hour time labels, grouping slots by date, the form update
and the submit handler) and of the confirmation page (the zero-padded
booking id, the receipt and its fallback).

The database is three in-memory tables with serial counters: a map from
slot id to slot, and sequences of patients and appointments. Each HTTP
request is one atomic step. The two POST handlers are written twice:

- a pure step function on a `Tables` value (`Server.CreatePatientStep`,
  `Server.CreateAppointmentStep`), which carries the properties;
- a method of the `Server.Database` class that changes the fields in place,
  proved to leave exactly the state the step function describes.

The two GET handlers are written once each: the slot listing as the
method `Server.Database.GetTimeSlots`, which scans the table, and the
appointment lookup as the function `Server.AppointmentLookup`.

The slot generator is a method with its three nested loops, proved to end in
the state `SlotGeneration.Regenerated` describes. `CURRENT_DATE` is a
parameter `today`, dates are day numbers, and a TIME column is its
"HH:MM:SS" text. JavaScript falsiness is modelled explicitly: a text member
is falsy when missing, null or empty, and an id when missing, null or `0`.

Modules: `Wrappers` (Option), `Text` (the JavaScript string behaviour
relied on: `String(n)`, `parseInt`, `split`, `padStart`, text order),
`Server`, `SlotGeneration`, `BookingPage` and `ConfirmationPage`.

Where code and design differ, the model follows the code:

- A booking is two requests. The patient is created by its own request
  before the appointment, not inside the reservation transaction.
- The stored appointment takes `doctor_id`, `appointment_date` and
  `appointment_time` verbatim from the request body. They are never checked
  against the slot, and the model does not add that check.

## Model

| member | source | states |
|---|---|---|
| Server.CreatePatientStep | backend/server.js:119-141 | 400 "Missing required fields" exactly when full name, date of birth, gender or phone is falsy, with the tables unchanged; otherwise 201 and exactly one appended row carrying the given fields (e-mail and address as sent, possibly null) under the next serial id, nothing else changed |
| Server.CreatePatientPreservesInvariants | backend/server.js:128-136 | creating a patient keeps serial ids increasing and below their sequences, and keeps the booking invariant |
| Server.Database.CreatePatient | backend/server.js:119-141 | the handler, changing the tables in place: new state and response are those of `CreatePatientStep` |
| Server.CreateAppointmentStep | backend/server.js:146-207 | 400 with nothing touched when patient, doctor or slot id is falsy or date or time is missing; "Time slot not found" (500) when the slot id is not in the table and "Time slot is no longer available" (500) when it is taken, both with the tables unchanged; otherwise 201, exactly one appended appointment holding the request's fields verbatim, that slot flipped to unavailable and every other slot, the patients and the other sequences unchanged |
| Server.CreateAppointmentPreservesInvariants | backend/server.js:159-190 | a reservation keeps serial ids in order, and since it books only an available slot and flips it in the same step, no two appointments ever hold one slot |
| Server.Database.CreateAppointment | backend/server.js:155-201 | BEGIN, the slot check, insert, update and COMMIT, or ROLLBACK to the snapshot on a thrown error: new state and response are those of `CreateAppointmentStep` |
| Server.RunPreservesInvariants | backend/server.js:119-207 | any sequence of patient and appointment requests keeps the serial-id and booking invariants |
| Server.NoResurrection | backend/server.js:171-187 | no handler sets `is_available` back to true: an unavailable slot stays unchanged, and every later request naming it fails |
| Server.AtMostOneBookingPerSlot | backend/server.js:167-187 | handled one at a time, two appointment requests for the same slot never both succeed |
| Server.InsertSorted | backend/server.js:105 | inserting into rows sorted by (date, time) gives sorted rows: the prefix not later than the slot, the slot, then the rest |
| Server.InsertSortedContents | backend/server.js:100-106 | inserting a slot with a new id keeps ids distinct and adds exactly that slot |
| Server.ScanStep | backend/server.js:100-106 | one step of the scan keeps: sorted, distinct, exactly the listed slots with smaller ids |
| Server.Database.GetTimeSlots | backend/server.js:95-114 | the listing holds exactly the slots of the doctor that are available and dated today or later, each once, as stored, sorted by date and then time |
| Server.AppointmentLookup | backend/server.js:212-241 | 200 with the appointment of that id joined with its patient's name, phone and e-mail when both rows exist; otherwise 404 "Appointment not found" |
| Server.FindAppointment | backend/server.js:228 | the row found has the id asked for; none is found exactly when no row has it |
| Server.FindPatient | backend/server.js:225 | the join's patient row has the id asked for; none is found exactly when no row has it |
| Server.CreatedPatientIsFound | backend/server.js:129-136 | a created patient is found again by the id its response carries |
| Server.BookedAppointmentIsFound | backend/server.js:212-236 | after creating a patient and booking for it, the lookup of the returned appointment id answers 200 with that row and the patient's name, phone and e-mail |
| SlotGeneration.TimesOnTimesRows | backend/generate_slot.js:29-34 | the rows one doctor's day inserts hold, for that doctor and date, exactly its list of times in list order, and no time for any other doctor or date |
| SlotGeneration.PlanLength | backend/generate_slot.js:25-38 | the run inserts 30 × (5+4+4+4+4+4) = 750 rows |
| SlotGeneration.DaysRowsLength | backend/generate_slot.js:28-36 | one doctor's rows over `days` days number `days` × its list length |
| SlotGeneration.TableRowsLength | backend/generate_slot.js:27-38 | the rows for the timetable number `days` × the sum of the list lengths |
| SlotGeneration.PlanInWindow | backend/generate_slot.js:28-32 | every inserted row is dated 1 to 30 days after today and is for a doctor the timetable names; none is dated today |
| SlotGeneration.PlanTimes | backend/generate_slot.js:7-33 | for each doctor and date, the inserted times are exactly that doctor's list, in list order, on days 1 to 30 ahead, and none on other dates or for a doctor the timetable does not name |
| SlotGeneration.TimesForNumbered | backend/generate_slot.js:7-14 | the timetable is keyed 1, 2, 3, …, so a doctor's times are its own entry's list |
| SlotGeneration.DoctorTimesListed | backend/generate_slot.js:7-14 | the times the loops take from the table for a doctor are that doctor's list, empty for an id it does not name |
| SlotGeneration.RegeneratedMembers | backend/generate_slot.js:21-38 | after a run the slot table is the old past slots plus the 750 new rows under the next consecutive ids |
| SlotGeneration.RegeneratedPast | backend/generate_slot.js:21 | slots dated before today are exactly the old ones, unchanged; no old slot dated today or later survives, booked or not |
| SlotGeneration.RegeneratedNewRows | backend/generate_slot.js:30-33 | every inserted slot is available and dated after today |
| SlotGeneration.RegeneratedFuture | backend/generate_slot.js:21-38 | after a run every slot dated today or later is new, available and dated after today (none is dated today), and their contents are exactly the plan's rows |
| SlotGeneration.RegenerateTwice | backend/generate_slot.js:21-38 | a second run on the same day leaves the same future slot contents (up to fresh ids) and the same past slots |
| SlotGeneration.RegeneratedKeepsPast | backend/generate_slot.js:21 | a run leaves the slots dated before today as they were |
| SlotGeneration.RegeneratePreservesInvariants | backend/generate_slot.js:21-38 | a run keeps the serial-id invariant, and the booking invariant (deleted booked slots no longer count; new slots have ids no appointment holds) |
| SlotGeneration.InsertTimes | backend/generate_slot.js:29-36 | the innermost loop inserts one day's rows for a doctor under consecutive ids, counting each |
| SlotGeneration.InsertDays | backend/generate_slot.js:28-37 | the day loop inserts day offsets 1 to 30 in order, counting the rows |
| SlotGeneration.InsertTable | backend/generate_slot.js:27-38 | the doctor loop inserts every doctor's rows in table order; the count equals the number of rows inserted |
| SlotGeneration.GenerateTimeSlots | backend/generate_slot.js:16-48 | the whole run ends in the tables `Regenerated` describes, with `totalSlots` = 750 |
| BookingPage.DisplayHour | frontend/src/pages/BookingPage.jsx:73-75 | `hour % 12 \|\| 12`: 12 for NaN; in 1..12 and congruent to the hour mod 12 for a non-negative hour |
| BookingPage.FormatTimeOfClock | frontend/src/pages/BookingPage.jsx:71-77 | on an "HH:MM:SS" text the label is the 12-hour hour, ':', the minutes field unchanged, no seconds, then AM before noon and PM from noon |
| BookingPage.FormatTimeHourRoundTrip | frontend/src/pages/BookingPage.jsx:73-75 | for hours 0..23 the display hour is in 1..12, and with AM/PM it reads back as the same hour of the day |
| BookingPage.FormatTimeMidnight | frontend/src/pages/BookingPage.jsx:71-77 | hour 0 shows as "12:mm AM" |
| BookingPage.FormatTimeNoon | frontend/src/pages/BookingPage.jsx:71-77 | hour 12 shows as "12:mm PM" |
| BookingPage.FormatTimeOnePm | frontend/src/pages/BookingPage.jsx:71-77 | hour 13 shows as "1:mm PM" |
| BookingPage.GroupSlots | frontend/src/pages/BookingPage.jsx:80-87 | the reduce yields one key per date in order of first appearance, and under each date exactly the slots of that date in input order |
| BookingPage.DatesOfMembers | frontend/src/pages/BookingPage.jsx:80-84 | a date is a key exactly when some slot carries it |
| BookingPage.DatesOfDistinct | frontend/src/pages/BookingPage.jsx:82-84 | no date is a key twice |
| BookingPage.OnDate | frontend/src/pages/BookingPage.jsx:85 | every slot in a date's group carries that date |
| BookingPage.OnDateKeepsOrder | frontend/src/pages/BookingPage.jsx:85 | a slot sits in its date's group after the earlier slots of that date: input order is kept |
| BookingPage.SlotInItsGroup | frontend/src/pages/BookingPage.jsx:80-87 | every slot is in the group keyed by its own date |
| BookingPage.GroupSizesSum | frontend/src/pages/BookingPage.jsx:80-87 | the group sizes add up to the number of slots: none is lost or counted twice |
| BookingPage.HandleInputChange | frontend/src/pages/BookingPage.jsx:51-57 | the named field takes the new text and every other field keeps its value |
| BookingPage.FormOfFields | frontend/src/pages/BookingPage.jsx:19-27 | a form is determined by its seven fields |
| BookingPage.InputChangesCommute | frontend/src/pages/BookingPage.jsx:51-57 | edits of two different fields commute; a second edit of one field overrides the first |
| BookingPage.BookingState.OnInputChange | frontend/src/pages/BookingPage.jsx:51-57 | the page's form state becomes `HandleInputChange` of the old one |
| BookingPage.PatientRequest | frontend/src/pages/BookingPage.jsx:110-117 | the patient body passes the server's check exactly when the four required inputs are non-empty; empty e-mail and address are sent as null |
| BookingPage.AppointmentRequest | frontend/src/pages/BookingPage.jsx:120-127 | the appointment body passes the server's required-field check exactly when the returned patient id is non-zero, the route's doctor id parses to a non-zero number, and the selected slot has a non-zero id and a non-empty time |
| BookingPage.ErrorText | frontend/src/pages/BookingPage.jsx:140 | the error shown is the server's message when it has one, else the fixed fallback; never empty |
| BookingPage.Submit | frontend/src/pages/BookingPage.jsx:90-145 | with no slot selected: "Please select a time slot", no request and no change; with a required field empty: "Please fill in all required fields", no request and no change; an error is shown exactly when there is no navigation |
| BookingPage.SubmitSendsPatientThenAppointment | frontend/src/pages/BookingPage.jsx:109-127 | past the checks the patient request goes first and always succeeds; the appointment request follows with the returned patient id, `parseInt(doctorId)` and the selected slot's id, date and time |
| BookingPage.RunTwo | frontend/src/pages/BookingPage.jsx:110-127 | two awaited requests are the server handling the first and then the second |
| BookingPage.SubmitIsRun | frontend/src/pages/BookingPage.jsx:105-127 | the tables after a submit are the server's tables after the requests it sent, in order |
| BookingPage.SubmitNavigatesIffBooked | frontend/src/pages/BookingPage.jsx:94-137 | the confirmation is reached exactly when a slot is selected, the required inputs are filled, the doctor id parses to a non-zero number, the slot has an id and a time, and the slot is still in the table and available |
| BookingPage.SubmitOutcome | frontend/src/pages/BookingPage.jsx:109-140 | past the checks one patient is always created; on success the navigation carries the new patient, the selected slot and doctor, and an appointment on that slot for that patient, now taken; on failure the patient stays but no appointment or slot changes |
| BookingPage.BookingState.HandleSubmit | frontend/src/pages/BookingPage.jsx:90-145 | the handler, with the server's `Database`: tables, error and navigation end as `Submit` says; `submitting` ends false once requests were sent and is untouched when a check fails |
| BookingPage.BookingState.SendBooking | frontend/src/pages/BookingPage.jsx:105-138 | the `try` block: both requests are sent, the tables end as `Submit` says, and the error or the navigation is set |
| ConfirmationPage.BookingId | frontend/src/pages/ConfirmationPage.jsx:72 | the booking text is at least 6 characters and no shorter than the decimal id; exactly 6 for shorter ids; unchanged for ids of 6 or more digits |
| ConfirmationPage.BookingIdRoundTrip | frontend/src/pages/ConfirmationPage.jsx:72 | for a non-negative id the booking text is all digits, and it reads back as the id both as a decimal value and through `parseInt` |
| ConfirmationPage.BookingIdInjective | frontend/src/pages/ConfirmationPage.jsx:72 | two ids with the same booking text are the same id |
| ConfirmationPage.Render | frontend/src/pages/ConfirmationPage.jsx:9-26 | only the "No booking information found" fallback exactly when there is no appointment; a receipt exactly when appointment, patient and doctor are all present, under the padded booking id and with the e-mail row exactly for a non-empty e-mail |
| ConfirmationPage.ReceiptOfNavigation | frontend/src/pages/ConfirmationPage.jsx:72-123 | the receipt for the booking page's navigation shows that booking's patient, doctor, date and 12-hour time, under an id that reads back to the appointment id |
| ConfirmationPage.ReceiptOfBooking | frontend/src/pages/ConfirmationPage.jsx:72-123 | a submit that reaches the confirmation renders a receipt whose id reads back to an appointment the server's lookup finds with this patient, showing the form's details and the selected slot's date and time |
| ConfirmationPage.ReceiptTime | frontend/src/pages/ConfirmationPage.jsx:38-44 | the receipt's time for an "HH:MM:SS" column is the 12-hour hour, the minutes unchanged and AM before noon, PM from noon (the page's `formatTime` is the same code as the booking page's and is modelled once) |

## Left out

- Concurrency: the transaction reads the slot with a plain SELECT and updates it unconditionally, so racing requests are not excluded. Each request is one atomic step and no mutual-exclusion claim is made.
- The pg pool, `client.release`, Express routing, CORS, dotenv, the `/metrics` endpoint, `console` logging and `process.exit`: plumbing with no effect on the tables.
- Server.CreatePatientStep: a failing INSERT (500 "Failed to create patient") is not modelled, because the database is never unavailable or out of space here. The same holds for the 500 answers of the listing and lookup handlers.
- Server.CreatePatientStep, Server.CreateAppointmentStep: column types and constraints are not modelled, because the schema is not part of this model. Any non-empty text is accepted as `date_of_birth` or `appointment_time`, where PostgreSQL could reject a malformed value with a 500 (and, for the appointment, a rollback).
- Server.CreateAppointmentStep: database errors inside the transaction other than the two thrown messages are not modelled, for the same reason. Foreign-key checks on `patient_id` and `doctor_id` are not modelled, because the schema is not part of this model.
- Server.AppointmentLookup: the joins with `doctors` and `categories` (doctor name, category name) are not modelled, because those tables are not part of this model. A missing doctor row therefore cannot produce a 404 here.
- The category and doctor listings (`/api/categories`, `/api/doctors…`): only an ORDER BY over joins of tables this model does not hold.
- Serial ids are modelled as counters that start at 1 and only grow. Ids consumed by a rolled-back insert are not modelled.
- SlotGeneration.GenerateTimeSlots: adding n days to the current date is day-number addition. The three nested `for` loops are three methods, one loop each, and the day count is passed in as 30. Query failures are not modelled. The script runs outside a transaction, so an INSERT that fails after the DELETE would leave the future slots deleted and only part of the plan inserted, and the process would exit with status 1. The model always completes the run. The DELETE is assumed to succeed: a foreign key from `appointments` to booked future slots, if the schema declares one, would reject it, and the schema is not part of this model.
- `formatDate`, the date-of-birth display and the form's `max` date attribute depend on `Date`, time zones and locales; dates are day numbers and are shown raw in the receipt model.
- Text.ParseInt: leading white space, a "0x" prefix and numbers too large to be exact doubles are not modelled, because slot times, ids and route parameters never have them.
- BookingPage.FormatTime: for a negative hour the label follows JavaScript's truncating `%`, and for a text without ':' the minutes print as "undefined". The properties are stated for "HH:MM:SS" texts, the only ones the TIME column yields.
- BookingPage.HandleInputChange: input names are the seven fields of the form, so an unknown `name` (which JavaScript would add as a new key) cannot occur.
- BookingPage.BookingState.SendBooking: network failures and other thrown errors without a response body are not modelled, because the server model always answers. The page's error text for them would be the fixed fallback. The branch for a failed patient request is not in the method: once the page's own checks pass, the server accepts the patient.
- Fetching slots on load (`fetchTimeSlots`, the `loading` flag and its error text), slot selection and all JSX rendering: user-interface code without logic beyond what is modelled.
- `frontend/src/api.js` is not part of this model: it only wraps the HTTP calls, which are modelled as the server steps.
- ConfirmationPage.Render: the receipt is a record of the values shown, not markup. `window.print` and the static notes are not modelled.
