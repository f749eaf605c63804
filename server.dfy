/**
 * The booking back end: the `time_slots`, `patients` and `appointments`
 * tables, the patient and appointment POST handlers, the available-slot
 * listing and the appointment lookup. Each HTTP request is one atomic step;
 * `CURRENT_DATE` is the parameter `today` and dates are day numbers.
 */
module Server {
  import opened Wrappers
  import opened Text

  /** A calendar date as a day number. */
  type Date = int

  /** A row of `time_slots`; `slotTime` is the "HH:MM:SS" text of the TIME column. */
  datatype Slot = Slot(slotId: int, doctorId: int, slotDate: Date, slotTime: string, isAvailable: bool)

  /** A row of `patients`; `None` is SQL NULL. */
  datatype Patient = Patient(
    patientId: int, fullName: string, dateOfBirth: string, gender: string, phone: string,
    email: Option<string>, address: Option<string>)

  /** A row of `appointments`. */
  datatype Appointment = Appointment(
    appointmentId: int, patientId: int, doctorId: int, slotId: int,
    appointmentDate: Date, appointmentTime: string, notes: Option<string>)

  /** The JSON body of `POST /api/patients`; `None` is a missing or null member. */
  datatype PatientBody = PatientBody(
    fullName: Option<string>, dateOfBirth: Option<string>, gender: Option<string>, phone: Option<string>,
    email: Option<string>, address: Option<string>)

  /** The JSON body of `POST /api/appointments`. */
  datatype AppointmentBody = AppointmentBody(
    patientId: Option<int>, doctorId: Option<int>, slotId: Option<int>,
    appointmentDate: Option<Date>, appointmentTime: Option<string>, notes: Option<string>)

  /** An HTTP response: a status with a JSON row, or a status with `{ error: message }`. */
  datatype Response<T> = Ok(status: int, body: T) | Error(status: int, message: string)

  const MissingFieldsMessage := "Missing required fields"
  const SlotNotFoundMessage := "Time slot not found"
  const SlotTakenMessage := "Time slot is no longer available"
  const AppointmentNotFoundMessage := "Appointment not found"

  /** JavaScript truthiness of a text member: present and not empty. */
  predicate TruthyText(s: Option<string>) {
    s.Some? && s.value != ""
  }

  /** JavaScript truthiness of a numeric id member: present and not 0. */
  predicate TruthyId(x: Option<int>) {
    x.Some? && x.value != 0
  }

  predicate PatientFieldsPresent(b: PatientBody) {
    TruthyText(b.fullName) && TruthyText(b.dateOfBirth) && TruthyText(b.gender) && TruthyText(b.phone)
  }

  predicate AppointmentFieldsPresent(b: AppointmentBody) {
    && TruthyId(b.patientId) && TruthyId(b.doctorId) && TruthyId(b.slotId)
    && b.appointmentDate.Some? && TruthyText(b.appointmentTime)
  }

  /** The three tables and their serial sequences (the next id each will hand out). */
  datatype Tables = Tables(
    slots: map<int, Slot>, patients: seq<Patient>, appointments: seq<Appointment>,
    nextSlotId: int, nextPatientId: int, nextAppointmentId: int)

  /** Serial ids: each row's id is below its sequence, and rows are stored in id order. */
  predicate WellFormed(t: Tables) {
    && 1 <= t.nextSlotId && 1 <= t.nextPatientId && 1 <= t.nextAppointmentId
    && (forall k :: k in t.slots ==> t.slots[k].slotId == k && 1 <= k < t.nextSlotId)
    && (forall i :: 0 <= i < |t.patients| ==> 1 <= t.patients[i].patientId < t.nextPatientId)
    && (forall i, j :: 0 <= i < j < |t.patients| ==> t.patients[i].patientId < t.patients[j].patientId)
    && (forall i :: 0 <= i < |t.appointments| ==> 1 <= t.appointments[i].appointmentId < t.nextAppointmentId)
    && (forall i, j :: 0 <= i < j < |t.appointments| ==>
          t.appointments[i].appointmentId < t.appointments[j].appointmentId)
  }

  /**
   * Every booked slot that is still in the table is marked unavailable, no two
   * appointments hold the same slot, and booked slot ids were handed out by the
   * slot sequence.
   */
  predicate BookingConsistent(t: Tables) {
    && (forall i :: 0 <= i < |t.appointments| ==> t.appointments[i].slotId < t.nextSlotId)
    && (forall i :: 0 <= i < |t.appointments| && t.appointments[i].slotId in t.slots ==>
          !t.slots[t.appointments[i].slotId].isAvailable)
    && (forall i, j :: 0 <= i < j < |t.appointments| ==> t.appointments[i].slotId != t.appointments[j].slotId)
  }

  /** The tables after a request, and the response sent. */
  datatype Outcome<T> = Outcome(tables: Tables, response: Response<T>)

  /** `POST /api/patients`. */
  function CreatePatientStep(t: Tables, b: PatientBody): (o: Outcome<Patient>)
    ensures o.response.Error? <==> !PatientFieldsPresent(b)
    ensures o.response.Error? ==> o.tables == t && o.response == Error(400, MissingFieldsMessage)
    ensures o.response.Ok? ==>
      var p := o.response.body;
      && o.response.status == 201
      && p.patientId == t.nextPatientId
      && Some(p.fullName) == b.fullName && Some(p.dateOfBirth) == b.dateOfBirth
      && Some(p.gender) == b.gender && Some(p.phone) == b.phone
      && p.email == b.email && p.address == b.address
      && o.tables == t.(patients := t.patients + [p], nextPatientId := t.nextPatientId + 1)
  {
    if !PatientFieldsPresent(b) then
      Outcome(t, Error(400, MissingFieldsMessage))
    else
      var p := Patient(t.nextPatientId, b.fullName.value, b.dateOfBirth.value, b.gender.value,
                       b.phone.value, b.email, b.address);
      Outcome(t.(patients := t.patients + [p], nextPatientId := t.nextPatientId + 1), Ok(201, p))
  }

  /**
   * `POST /api/appointments`: validation, then in one transaction the slot
   * check, the insert and the flip of that slot to unavailable; on a thrown
   * error the transaction rolls back and the message is returned with 500.
   */
  function CreateAppointmentStep(t: Tables, b: AppointmentBody): (o: Outcome<Appointment>)
    ensures !AppointmentFieldsPresent(b) ==> o == Outcome(t, Error(400, MissingFieldsMessage))
    ensures AppointmentFieldsPresent(b) && b.slotId.value !in t.slots ==>
      o == Outcome(t, Error(500, SlotNotFoundMessage))
    ensures AppointmentFieldsPresent(b) && b.slotId.value in t.slots && !t.slots[b.slotId.value].isAvailable ==>
      o == Outcome(t, Error(500, SlotTakenMessage))
    ensures o.response.Ok? <==>
      AppointmentFieldsPresent(b) && b.slotId.value in t.slots && t.slots[b.slotId.value].isAvailable
    ensures o.response.Ok? ==>
      var a := o.response.body;
      var k := b.slotId.value;
      && o.response.status == 201
      && a == Appointment(t.nextAppointmentId, b.patientId.value, b.doctorId.value, k,
                          b.appointmentDate.value, b.appointmentTime.value, b.notes)
      && o.tables.appointments == t.appointments + [a]
      && o.tables.nextAppointmentId == t.nextAppointmentId + 1
      && o.tables.slots.Keys == t.slots.Keys
      && o.tables.slots[k] == t.slots[k].(isAvailable := false)
      && (forall j :: j in t.slots && j != k ==> o.tables.slots[j] == t.slots[j])
      && o.tables.patients == t.patients
      && o.tables.nextSlotId == t.nextSlotId && o.tables.nextPatientId == t.nextPatientId
  {
    if !AppointmentFieldsPresent(b) then
      Outcome(t, Error(400, MissingFieldsMessage))
    else
      var k := b.slotId.value;
      if k !in t.slots then
        Outcome(t, Error(500, SlotNotFoundMessage))
      else if !t.slots[k].isAvailable then
        Outcome(t, Error(500, SlotTakenMessage))
      else
        var a := Appointment(t.nextAppointmentId, b.patientId.value, b.doctorId.value, k,
                             b.appointmentDate.value, b.appointmentTime.value, b.notes);
        Outcome(t.(appointments := t.appointments + [a],
                   nextAppointmentId := t.nextAppointmentId + 1,
                   slots := t.slots[k := t.slots[k].(isAvailable := false)]),
                Ok(201, a))
  }

  /** Creating a patient keeps the serial ids in order and touches no booking. */
  lemma CreatePatientPreservesInvariants(t: Tables, b: PatientBody)
    requires WellFormed(t)
    ensures WellFormed(CreatePatientStep(t, b).tables)
    ensures BookingConsistent(t) ==> BookingConsistent(CreatePatientStep(t, b).tables)
  {
  }

  /**
   * A reservation keeps the serial ids in order, and since it books only an
   * available slot and flips it in the same step, no two appointments end up
   * holding one slot.
   */
  lemma CreateAppointmentPreservesInvariants(t: Tables, b: AppointmentBody)
    requires WellFormed(t)
    ensures WellFormed(CreateAppointmentStep(t, b).tables)
    ensures BookingConsistent(t) ==> BookingConsistent(CreateAppointmentStep(t, b).tables)
  {
    var o := CreateAppointmentStep(t, b);
    if o.response.Ok? {
      ReservationWellFormed(t, b.slotId.value, o.response.body, o.tables);
      if BookingConsistent(t) {
        ReservationConsistent(t, b.slotId.value, o.response.body, o.tables);
      }
    }
  }

  /** The tables after booking slot `k` as appointment `a`. */
  predicate BookedAs(t: Tables, k: int, a: Appointment, t': Tables) {
    && k in t.slots && t.slots[k].isAvailable
    && a.slotId == k && a.appointmentId == t.nextAppointmentId
    && t' == t.(appointments := t.appointments + [a],
                nextAppointmentId := t.nextAppointmentId + 1,
                slots := t.slots[k := t.slots[k].(isAvailable := false)])
  }

  lemma ReservationWellFormed(t: Tables, k: int, a: Appointment, t': Tables)
    requires WellFormed(t) && BookedAs(t, k, a, t')
    ensures WellFormed(t')
  {
    var n := |t.appointments|;
    assert forall i :: 0 <= i < n ==> t'.appointments[i] == t.appointments[i];
    assert t'.appointments[n] == a;
  }

  lemma ReservationConsistent(t: Tables, k: int, a: Appointment, t': Tables)
    requires WellFormed(t) && BookingConsistent(t) && BookedAs(t, k, a, t')
    ensures BookingConsistent(t')
  {
    var n := |t.appointments|;
    assert forall i :: 0 <= i < n ==> t'.appointments[i] == t.appointments[i];
    assert t'.appointments[n] == a;
    // an earlier booking of `k` would have left it unavailable
    assert forall i :: 0 <= i < n ==> t.appointments[i].slotId != k;
  }

  // ---------------------------------------------------------------------
  // A sequence of requests, handled one after the other
  // ---------------------------------------------------------------------

  datatype Request = PostPatient(patient: PatientBody) | PostAppointment(appointment: AppointmentBody)

  datatype Reply = PatientReply(patientResponse: Response<Patient>)
                 | AppointmentReply(appointmentResponse: Response<Appointment>)

  function Step(t: Tables, r: Request): (Tables, Reply) {
    match r
    case PostPatient(b) =>
      var o := CreatePatientStep(t, b);
      (o.tables, PatientReply(o.response))
    case PostAppointment(b) =>
      var o := CreateAppointmentStep(t, b);
      (o.tables, AppointmentReply(o.response))
  }

  /** The tables after handling `reqs` in order, with one reply per request. */
  function Run(t: Tables, reqs: seq<Request>): (r: (Tables, seq<Reply>))
    ensures |r.1| == |reqs|
  {
    if reqs == [] then (t, [])
    else
      var before := Run(t, reqs[..|reqs| - 1]);
      var after := Step(before.0, reqs[|reqs| - 1]);
      (after.0, before.1 + [after.1])
  }

  /** An appointment request that names slot `k`. */
  predicate TargetsSlot(r: Request, k: int) {
    r.PostAppointment? && r.appointment.slotId == Some(k)
  }

  predicate BookedSlot(reply: Reply) {
    reply.AppointmentReply? && reply.appointmentResponse.Ok?
  }

  /** Both handlers keep the serial ids and the booking invariant. */
  lemma {:induction false} RunPreservesInvariants(t: Tables, reqs: seq<Request>)
    requires WellFormed(t) && BookingConsistent(t)
    ensures WellFormed(Run(t, reqs).0) && BookingConsistent(Run(t, reqs).0)
  {
    if reqs != [] {
      var before := Run(t, reqs[..|reqs| - 1]).0;
      RunPreservesInvariants(t, reqs[..|reqs| - 1]);
      match reqs[|reqs| - 1]
      case PostPatient(b) => CreatePatientPreservesInvariants(before, b);
      case PostAppointment(b) => CreateAppointmentPreservesInvariants(before, b);
    }
  }

  /**
   * No handler sets `is_available` back to true: a slot that is unavailable
   * stays in the table unchanged, and every later request that names it fails.
   */
  lemma {:induction false} NoResurrection(t: Tables, reqs: seq<Request>, k: int)
    requires k in t.slots && !t.slots[k].isAvailable
    ensures k in Run(t, reqs).0.slots && Run(t, reqs).0.slots[k] == t.slots[k]
    ensures forall i :: 0 <= i < |reqs| && TargetsSlot(reqs[i], k) ==> !BookedSlot(Run(t, reqs).1[i])
  {
    if reqs != [] {
      var n := |reqs| - 1;
      NoResurrection(t, reqs[..n], k);
      var before := Run(t, reqs[..n]);
      assert Run(t, reqs).1 == before.1 + [Step(before.0, reqs[n]).1];
      forall i | 0 <= i < |reqs| && TargetsSlot(reqs[i], k)
        ensures !BookedSlot(Run(t, reqs).1[i])
      {
        if i < n {
          assert reqs[..n][i] == reqs[i];
        }
      }
    }
  }

  /** Handling `a` then `b` is handling `a + b`. */
  lemma {:induction false} RunConcat(t: Tables, a: seq<Request>, b: seq<Request>)
    ensures Run(t, a + b).0 == Run(Run(t, a).0, b).0
    ensures Run(t, a + b).1 == Run(t, a).1 + Run(Run(t, a).0, b).1
  {
    if b == [] {
      assert a + b == a;
    } else {
      var n := |b| - 1;
      assert (a + b)[..|a + b| - 1] == a + b[..n];
      RunConcat(t, a, b[..n]);
    }
  }

  /**
   * Handled one at a time, at most one request wins each slot: two
   * appointment requests for the same slot never both succeed.
   */
  lemma AtMostOneBookingPerSlot(t: Tables, reqs: seq<Request>, k: int, i: int, j: int)
    requires 0 <= i < j < |reqs|
    requires TargetsSlot(reqs[i], k) && TargetsSlot(reqs[j], k)
    ensures !(BookedSlot(Run(t, reqs).1[i]) && BookedSlot(Run(t, reqs).1[j]))
  {
    var head := reqs[..i + 1];
    var tail := reqs[i + 1..];
    assert reqs == head + tail;
    RunConcat(t, head, tail);
    var mid := Run(t, head);
    assert head[..i] == reqs[..i];
    var before := Run(t, reqs[..i]);
    assert mid.1[i] == Step(before.0, reqs[i]).1;
    assert Run(t, reqs).1[i] == mid.1[i];
    if BookedSlot(mid.1[i]) {
      assert k in mid.0.slots && !mid.0.slots[k].isAvailable;
      NoResurrection(mid.0, tail, k);
      assert tail[j - i - 1] == reqs[j];
      assert Run(t, reqs).1[j] == Run(mid.0, tail).1[j - i - 1];
    }
  }

  // ---------------------------------------------------------------------
  // The available-slot listing
  // ---------------------------------------------------------------------

  /** The WHERE clause of the listing. */
  predicate Listed(s: Slot, doctorId: int, today: Date) {
    s.doctorId == doctorId && s.isAvailable && s.slotDate >= today
  }

  /** `ORDER BY slot_date, slot_time`. */
  predicate SlotLe(a: Slot, b: Slot) {
    a.slotDate < b.slotDate || (a.slotDate == b.slotDate && LexLe(a.slotTime, b.slotTime))
  }

  predicate SortedByDateTime(rows: seq<Slot>) {
    forall i, j :: 0 <= i < j < |rows| ==> SlotLe(rows[i], rows[j])
  }

  predicate DistinctSlotIds(rows: seq<Slot>) {
    forall i, j :: 0 <= i < j < |rows| ==> rows[i].slotId != rows[j].slotId
  }

  lemma SlotLeTotal(a: Slot, b: Slot)
    ensures SlotLe(a, b) || SlotLe(b, a)
  {
    LexLeTotal(a.slotTime, b.slotTime);
  }

  lemma SlotLeTransitive(a: Slot, b: Slot, c: Slot)
    requires SlotLe(a, b) && SlotLe(b, c)
    ensures SlotLe(a, c)
  {
    if a.slotDate == b.slotDate == c.slotDate {
      LexLeTransitive(a.slotTime, b.slotTime, c.slotTime);
    }
  }

  /** A lower bound of the first row of a sorted sequence bounds all of it. */
  lemma BelowSorted(s: Slot, rows: seq<Slot>)
    requires SortedByDateTime(rows) && rows != [] && SlotLe(s, rows[0])
    ensures forall i :: 0 <= i < |rows| ==> SlotLe(s, rows[i])
  {
    forall i | 0 < i < |rows| ensures SlotLe(s, rows[i]) {
      SlotLeTransitive(s, rows[0], rows[i]);
    }
  }

  /** Where `s` goes in sorted `rows`: after every row not later than it. */
  function InsertionPoint(rows: seq<Slot>, s: Slot): (p: nat)
    requires SortedByDateTime(rows)
    ensures p <= |rows|
    ensures forall i :: 0 <= i < p ==> SlotLe(rows[i], s)
    ensures forall i :: p <= i < |rows| ==> SlotLe(s, rows[i])
  {
    if rows == [] then 0
    else if !SlotLe(rows[0], s) then
      SlotLeTotal(rows[0], s);
      BelowSorted(s, rows);
      0
    else
      1 + InsertionPoint(rows[1..], s)
  }

  lemma InsertedElement(rows: seq<Slot>, p: nat, s: Slot, i: nat)
    requires p <= |rows| && i <= |rows|
    ensures (rows[..p] + [s] + rows[p..])[i] == if i < p then rows[i] else if i == p then s else rows[i - 1]
  {
  }

  function InsertSorted(rows: seq<Slot>, s: Slot): (r: seq<Slot>)
    requires SortedByDateTime(rows)
    ensures SortedByDateTime(r)
    ensures r == rows[..InsertionPoint(rows, s)] + [s] + rows[InsertionPoint(rows, s)..]
  {
    var p := InsertionPoint(rows, s);
    var r := rows[..p] + [s] + rows[p..];
    assert SortedByDateTime(r) by {
      forall i, j | 0 <= i < j < |r| ensures SlotLe(r[i], r[j]) {
        InsertedElement(rows, p, s, i);
        InsertedElement(rows, p, s, j);
      }
    }
    r
  }

  /** Inserting a slot whose id is new keeps ids distinct and adds exactly that slot. */
  lemma InsertSortedContents(rows: seq<Slot>, s: Slot)
    requires SortedByDateTime(rows) && DistinctSlotIds(rows)
    requires forall i :: 0 <= i < |rows| ==> rows[i].slotId != s.slotId
    ensures DistinctSlotIds(InsertSorted(rows, s))
    ensures forall x :: x in InsertSorted(rows, s) <==> x in rows || x == s
  {
    var p := InsertionPoint(rows, s);
    var r := InsertSorted(rows, s);
    forall i, j | 0 <= i < j < |r| ensures r[i].slotId != r[j].slotId {
      InsertedElement(rows, p, s, i);
      InsertedElement(rows, p, s, j);
    }
    forall x ensures x in r <==> x in rows || x == s {
      if x in rows {
        var i :| 0 <= i < |rows| && rows[i] == x;
        InsertedElement(rows, p, s, if i < p then i else i + 1);
      }
      if x in r {
        var i :| 0 <= i < |r| && r[i] == x;
        InsertedElement(rows, p, s, i);
      }
    }
  }

  /** The listing's scan: `rows` holds, sorted and once each, the listed slots with ids below `id`. */
  predicate ScannedUpTo(slots: map<int, Slot>, rows: seq<Slot>, id: int, doctorId: int, today: Date) {
    && SortedByDateTime(rows) && DistinctSlotIds(rows)
    && (forall i :: 0 <= i < |rows| ==>
          rows[i].slotId in slots && rows[i].slotId < id &&
          slots[rows[i].slotId] == rows[i] && Listed(rows[i], doctorId, today))
    && (forall k :: k in slots && k < id && Listed(slots[k], doctorId, today) ==> slots[k] in rows)
  }

  lemma ScanStep(slots: map<int, Slot>, rows: seq<Slot>, id: int, doctorId: int, today: Date)
    requires forall k :: k in slots ==> slots[k].slotId == k
    requires ScannedUpTo(slots, rows, id, doctorId, today)
    ensures id in slots && Listed(slots[id], doctorId, today) ==>
      ScannedUpTo(slots, InsertSorted(rows, slots[id]), id + 1, doctorId, today)
    ensures !(id in slots && Listed(slots[id], doctorId, today)) ==>
      ScannedUpTo(slots, rows, id + 1, doctorId, today)
  {
    if id in slots && Listed(slots[id], doctorId, today) {
      InsertSortedContents(rows, slots[id]);
    }
  }

  // ---------------------------------------------------------------------
  // The appointment lookup
  // ---------------------------------------------------------------------

  /** The appointment row with a given id, if any. */
  function FindAppointment(appointments: seq<Appointment>, id: int): (r: Option<Appointment>)
    ensures r.Some? ==> r.value in appointments && r.value.appointmentId == id
    ensures r.None? <==> forall i :: 0 <= i < |appointments| ==> appointments[i].appointmentId != id
  {
    if appointments == [] then None
    else if appointments[0].appointmentId == id then Some(appointments[0])
    else FindAppointment(appointments[1..], id)
  }

  /** The patient row with a given id, if any. */
  function FindPatient(patients: seq<Patient>, id: int): (r: Option<Patient>)
    ensures r.Some? ==> r.value in patients && r.value.patientId == id
    ensures r.None? <==> forall i :: 0 <= i < |patients| ==> patients[i].patientId != id
  {
    if patients == [] then None
    else if patients[0].patientId == id then Some(patients[0])
    else FindPatient(patients[1..], id)
  }

  /** An appointment row joined with its patient's display columns. */
  datatype AppointmentDetails = AppointmentDetails(
    appointment: Appointment, patientName: string, patientPhone: string, patientEmail: Option<string>)

  /** The lookup: an inner join, so a row needs both the appointment and its patient; otherwise 404. */
  function AppointmentLookup(t: Tables, appointmentId: int): (r: Response<AppointmentDetails>)
    ensures r.Error? ==> r == Error(404, AppointmentNotFoundMessage)
    ensures r.Ok? <==>
      FindAppointment(t.appointments, appointmentId).Some? &&
      FindPatient(t.patients, FindAppointment(t.appointments, appointmentId).value.patientId).Some?
    ensures r.Ok? ==>
      && r.status == 200
      && r.body.appointment in t.appointments
      && r.body.appointment.appointmentId == appointmentId
      && exists p :: p in t.patients && p.patientId == r.body.appointment.patientId &&
                     r.body.patientName == p.fullName && r.body.patientPhone == p.phone &&
                     r.body.patientEmail == p.email
  {
    match FindAppointment(t.appointments, appointmentId)
    case None => Error(404, AppointmentNotFoundMessage)
    case Some(a) =>
      match FindPatient(t.patients, a.patientId)
      case None => Error(404, AppointmentNotFoundMessage)
      case Some(p) => Ok(200, AppointmentDetails(a, p.fullName, p.phone, p.email))
  }

  /** In a table of increasing ids, the last row is the one found by its id. */
  lemma {:induction false} FindLastAppointment(appointments: seq<Appointment>, a: Appointment)
    requires forall i :: 0 <= i < |appointments| ==> appointments[i].appointmentId < a.appointmentId
    ensures FindAppointment(appointments + [a], a.appointmentId) == Some(a)
  {
    if appointments != [] {
      assert (appointments + [a])[1..] == appointments[1..] + [a];
      FindLastAppointment(appointments[1..], a);
    }
  }

  /** The last patient row is the one found by its id. */
  lemma {:induction false} FindLastPatient(patients: seq<Patient>, p: Patient)
    requires forall i :: 0 <= i < |patients| ==> patients[i].patientId < p.patientId
    ensures FindPatient(patients + [p], p.patientId) == Some(p)
  {
    if patients != [] {
      assert (patients + [p])[1..] == patients[1..] + [p];
      FindLastPatient(patients[1..], p);
    }
  }

  /** A newly created patient can be read back by the id the response carries. */
  lemma CreatedPatientIsFound(t: Tables, b: PatientBody)
    requires WellFormed(t)
    requires CreatePatientStep(t, b).response.Ok?
    ensures var o := CreatePatientStep(t, b);
      FindPatient(o.tables.patients, o.response.body.patientId) == Some(o.response.body)
  {
    FindLastPatient(t.patients, CreatePatientStep(t, b).response.body);
  }

  /**
   * Creating a patient and then booking for that patient: the appointment
   * lookup by the returned id answers 200 with the booked row and the
   * patient's name, phone and e-mail.
   */
  lemma BookedAppointmentIsFound(t: Tables, pb: PatientBody, ab: AppointmentBody)
    requires WellFormed(t)
    requires CreatePatientStep(t, pb).response.Ok?
    requires ab.patientId == Some(CreatePatientStep(t, pb).response.body.patientId)
    requires CreateAppointmentStep(CreatePatientStep(t, pb).tables, ab).response.Ok?
    ensures var p := CreatePatientStep(t, pb).response.body;
      var o := CreateAppointmentStep(CreatePatientStep(t, pb).tables, ab);
      AppointmentLookup(o.tables, o.response.body.appointmentId) ==
        Ok(200, AppointmentDetails(o.response.body, p.fullName, p.phone, p.email))
  {
    var t1 := CreatePatientStep(t, pb).tables;
    var p := CreatePatientStep(t, pb).response.body;
    var o := CreateAppointmentStep(t1, ab);
    CreatedPatientIsFound(t, pb);
    FindLastAppointment(t1.appointments, o.response.body);
  }

  // ---------------------------------------------------------------------
  // The database as the handlers change it
  // ---------------------------------------------------------------------

  class Database {
    var slots: map<int, Slot>
    var patients: seq<Patient>
    var appointments: seq<Appointment>
    var nextSlotId: int
    var nextPatientId: int
    var nextAppointmentId: int

    function State(): Tables
      reads this
    {
      Tables(slots, patients, appointments, nextSlotId, nextPatientId, nextAppointmentId)
    }

    ghost predicate Valid()
      reads this
    {
      WellFormed(State())
    }

    /** Empty tables with fresh serial sequences. */
    constructor ()
      ensures Valid()
      ensures State() == Tables(map[], [], [], 1, 1, 1)
    {
      slots, patients, appointments := map[], [], [];
      nextSlotId, nextPatientId, nextAppointmentId := 1, 1, 1;
    }

    method CreatePatient(body: PatientBody) returns (res: Response<Patient>)
      requires Valid()
      modifies this
      ensures Valid()
      ensures State() == CreatePatientStep(old(State()), body).tables
      ensures res == CreatePatientStep(old(State()), body).response
    {
      if !TruthyText(body.fullName) || !TruthyText(body.dateOfBirth) ||
         !TruthyText(body.gender) || !TruthyText(body.phone) {
        return Error(400, MissingFieldsMessage);
      }
      // the new row takes the next patient id
      var patient := Patient(nextPatientId, body.fullName.value, body.dateOfBirth.value, body.gender.value,
                             body.phone.value, body.email, body.address);
      CreatePatientPreservesInvariants(State(), body);
      patients := patients + [patient];
      nextPatientId := nextPatientId + 1;
      res := Ok(201, patient);
    }

    method CreateAppointment(body: AppointmentBody) returns (res: Response<Appointment>)
      requires Valid()
      modifies this
      ensures Valid()
      ensures State() == CreateAppointmentStep(old(State()), body).tables
      ensures res == CreateAppointmentStep(old(State()), body).response
    {
      if !TruthyId(body.patientId) || !TruthyId(body.doctorId) || !TruthyId(body.slotId) ||
         body.appointmentDate.None? || !TruthyText(body.appointmentTime) {
        return Error(400, MissingFieldsMessage);
      }
      var slotId := body.slotId.value;
      CreateAppointmentPreservesInvariants(State(), body);
      // keep the state a failed transaction returns to
      var savedSlots, savedAppointments, savedNext := slots, appointments, nextAppointmentId;
      var thrown: Option<string> := None;
      if slotId !in slots {
        thrown := Some(SlotNotFoundMessage);
      } else if !slots[slotId].isAvailable {
        thrown := Some(SlotTakenMessage);
      } else {
        // append the appointment under the next id
        var appointment := Appointment(nextAppointmentId, body.patientId.value, body.doctorId.value, slotId,
                                       body.appointmentDate.value, body.appointmentTime.value, body.notes);
        appointments := appointments + [appointment];
        nextAppointmentId := nextAppointmentId + 1;
        // mark the booked slot unavailable
        slots := slots[slotId := slots[slotId].(isAvailable := false)];
        // both changes are kept
        res := Ok(201, appointment);
      }
      if thrown.Some? {
        // undo both changes and answer 500 with the thrown message
        slots, appointments, nextAppointmentId := savedSlots, savedAppointments, savedNext;
        res := Error(500, thrown.value);
      }
    }

    /**
     * The listing: exactly the slots of `doctorId` that are available and
     * dated today or later, each once, ordered by date and then time.
     */
    method GetTimeSlots(doctorId: int, today: Date) returns (rows: seq<Slot>)
      requires Valid()
      ensures SortedByDateTime(rows)
      ensures DistinctSlotIds(rows)
      ensures forall i :: 0 <= i < |rows| ==>
        rows[i].slotId in slots && slots[rows[i].slotId] == rows[i] && Listed(rows[i], doctorId, today)
      ensures forall k :: k in slots && Listed(slots[k], doctorId, today) ==> slots[k] in rows
    {
      // a scan of the table in id order, keeping the result ordered
      rows := [];
      var id := 1;
      while id < nextSlotId
        invariant 1 <= id <= nextSlotId
        invariant ScannedUpTo(slots, rows, id, doctorId, today)
      {
        ScanStep(slots, rows, id, doctorId, today);
        if id in slots && Listed(slots[id], doctorId, today) {
          rows := InsertSorted(rows, slots[id]);
        }
        id := id + 1;
      }
    }
  }
}
