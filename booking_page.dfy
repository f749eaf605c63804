/**
 * The booking page's own logic: the 12-hour time label, the grouping of
 * offered slots by date, the form's field update and the submit handler that
 * validates the form and then creates the patient and the appointment.
 */
module BookingPage {
  import opened Wrappers
  import opened Text
  import opened Server

  /** JavaScript's `hour % 12`: truncating, so a negative hour leaves a remainder in -11..0. */
  function HourRemainder(a: int): (r: int)
    ensures a >= 0 ==> r == a % 12
    ensures a < 0 ==> -12 < r <= 0
    ensures r == 0 <==> a % 12 == 0
  {
    if a >= 0 then a % 12 else -((-a) % 12)
  }

  /** `hour % 12 || 12`, where `None` is NaN: a zero (or NaN) remainder shows as 12. */
  function DisplayHour(hour: Option<int>): (d: int)
    ensures hour.None? ==> d == 12
    ensures hour.Some? && hour.value >= 0 ==> 1 <= d <= 12 && d % 12 == hour.value % 12
    ensures hour.Some? ==> (1 <= d <= 12 <==> hour.value >= 0 || hour.value % 12 == 0)
  {
    if hour.None? then 12
    else
      var r := HourRemainder(hour.value);
      if r == 0 then 12 else r
  }

  /** `hour >= 12 ? 'PM' : 'AM'`; NaN compares false, so it gives AM. */
  function Meridiem(hour: Option<int>): (m: string)
    ensures m == "PM" || m == "AM"
    ensures m == "PM" <==> hour.Some? && hour.value >= 12
  {
    if hour.Some? && hour.value >= 12 then "PM" else "AM"
  }

  /**
   * `formatTime`: split the text on ':', read the hour with `parseInt`, and
   * print the 12-hour label with the minutes field as it is. A text with no
   * ':' has no minutes field, which the template prints as "undefined".
   */
  function FormatTime(timeString: string): string {
    var parts := Split(timeString, ':');
    var minutes := if |parts| >= 2 then parts[1] else "undefined";
    var hour := ParseInt(parts[0]);
    IntToDecimal(DisplayHour(hour)) + ":" + minutes + " " + Meridiem(hour)
  }

  /** Two-digit, zero-padded text of `n`, as a TIME column prints each field. */
  function TwoDigits(n: nat): (s: string)
    requires n < 100
    ensures |s| == 2 && AllDigits(s) && DecimalValue(s) == n
  {
    var s := [DigitChar(n / 10), DigitChar(n % 10)];
    var first := s[..1];
    assert first == [DigitChar(n / 10)] && first[..0] == [];
    assert DecimalValue(first) == n / 10;
    assert DecimalValue(s) == DecimalValue(first) * 10 + n % 10;
    s
  }

  /** The "HH:MM:SS" text of a time of day. */
  function ClockText(h: nat, m: nat, s: nat): string
    requires h < 24 && m < 60 && s < 60
  {
    TwoDigits(h) + ":" + TwoDigits(m) + ":" + TwoDigits(s)
  }

  /** The hour on a 12-hour dial, from the hour of the day. */
  function TwelveHour(h: nat): nat {
    if h % 12 == 0 then 12 else h % 12
  }

  /** Back from the 12-hour label to the hour of the day. */
  function DayHour(display: int, meridiem: string): int {
    display % 12 + (if meridiem == "PM" then 12 else 0)
  }

  lemma ClockTextFields(h: nat, m: nat, s: nat)
    requires h < 24 && m < 60 && s < 60
    ensures Split(ClockText(h, m, s), ':') == [TwoDigits(h), TwoDigits(m), TwoDigits(s)]
  {
    var parts := [TwoDigits(h), TwoDigits(m), TwoDigits(s)];
    assert Join(parts[2..], ':') == TwoDigits(s);
    assert Join(parts[1..], ':') == TwoDigits(m) + ":" + TwoDigits(s);
    assert Join(parts, ':') == ClockText(h, m, s);
    JoinThenSplit(parts, ':');
  }

  lemma ParseTwoDigits(n: nat)
    requires n < 100
    ensures ParseInt(TwoDigits(n)) == Some(n)
  {
    assert TwoDigits(n) + [] == TwoDigits(n);
    ParseIntOfDigits(TwoDigits(n), []);
  }

  /**
   * On the text of a time of day, the label is the 12-hour dial hour, the
   * minutes field unchanged, no seconds, and AM before noon, PM from noon.
   */
  lemma FormatTimeOfClock(h: nat, m: nat, s: nat)
    requires h < 24 && m < 60 && s < 60
    ensures FormatTime(ClockText(h, m, s)) ==
      NatToDecimal(TwelveHour(h)) + ":" + TwoDigits(m) + " " + (if h < 12 then "AM" else "PM")
  {
    ClockTextFields(h, m, s);
    ParseTwoDigits(h);
  }

  /** The label names the same hour of the day: 12-hour dial plus AM/PM reads back as `h`. */
  lemma FormatTimeHourRoundTrip(h: nat)
    requires h < 24
    ensures 1 <= DisplayHour(Some(h)) <= 12
    ensures DayHour(DisplayHour(Some(h)), Meridiem(Some(h))) == h
  {
  }

  /** The hour 0 shows as 12 AM. */
  lemma FormatTimeMidnight(h: nat, m: nat, s: nat)
    requires h == 0 && m < 60 && s < 60
    ensures FormatTime(ClockText(h, m, s)) == "12" + ":" + TwoDigits(m) + " " + "AM"
  {
    assert TwelveHour(h) == 12;
    assert NatToDecimal(12) == "12";
    FormatTimeOfClock(h, m, s);
  }

  /** The hour 12 shows as 12 PM. */
  lemma FormatTimeNoon(h: nat, m: nat, s: nat)
    requires h == 12 && m < 60 && s < 60
    ensures FormatTime(ClockText(h, m, s)) == "12" + ":" + TwoDigits(m) + " " + "PM"
  {
    assert TwelveHour(h) == 12;
    assert NatToDecimal(12) == "12";
    FormatTimeOfClock(h, m, s);
  }

  /** The hour 13 shows as 1 PM. */
  lemma FormatTimeOnePm(h: nat, m: nat, s: nat)
    requires h == 13 && m < 60 && s < 60
    ensures FormatTime(ClockText(h, m, s)) == "1" + ":" + TwoDigits(m) + " " + "PM"
  {
    assert TwelveHour(h) == 1;
    assert NatToDecimal(1) == "1";
    FormatTimeOfClock(h, m, s);
  }

  // ---------------------------------------------------------------------
  // groupedSlots: the offered slots, grouped by date
  // ---------------------------------------------------------------------

  /** The slots among the first `n` dated `date`, in their order. */
  function OnDate(slots: seq<Slot>, n: nat, date: Date): (r: seq<Slot>)
    requires n <= |slots|
    ensures forall i :: 0 <= i < |r| ==> r[i].slotDate == date
  {
    if n == 0 then []
    else if slots[n - 1].slotDate == date then OnDate(slots, n - 1, date) + [slots[n - 1]]
    else OnDate(slots, n - 1, date)
  }

  /** The dates of the first `n` slots, each once, in order of first appearance. */
  function DatesOf(slots: seq<Slot>, n: nat): seq<Date>
    requires n <= |slots|
  {
    if n == 0 then []
    else if slots[n - 1].slotDate in DatesOf(slots, n - 1) then DatesOf(slots, n - 1)
    else DatesOf(slots, n - 1) + [slots[n - 1].slotDate]
  }

  /** A JavaScript object keyed by date: its keys in insertion order, and the value under each. */
  datatype Grouped = Grouped(keys: seq<Date>, groups: map<Date, seq<Slot>>)

  /**
   * The `reduce` that builds `groupedSlots`: a date seen for the first time
   * gets an empty list, then the slot is pushed onto its date's list.
   */
  method GroupSlots(slots: seq<Slot>) returns (acc: Grouped)
    ensures acc.keys == DatesOf(slots, |slots|)
    ensures forall d :: d in acc.groups <==> d in acc.keys
    ensures forall d :: d in acc.groups ==> acc.groups[d] == OnDate(slots, |slots|, d)
  {
    acc := Grouped([], map[]);
    var i := 0;
    while i < |slots|
      invariant 0 <= i <= |slots|
      invariant acc.keys == DatesOf(slots, i)
      invariant forall d :: d in acc.groups <==> d in acc.keys
      invariant forall d :: d in acc.groups ==> acc.groups[d] == OnDate(slots, i, d)
      invariant forall d :: d !in acc.groups ==> OnDate(slots, i, d) == []
    {
      var slot := slots[i];
      var date := slot.slotDate;
      if date !in acc.groups {
        acc := Grouped(acc.keys + [date], acc.groups[date := []]);
      }
      acc := acc.(groups := acc.groups[date := acc.groups[date] + [slot]]);
      i := i + 1;
    }
  }

  /** A date is a key exactly when some slot carries it. */
  lemma {:induction false} DatesOfMembers(slots: seq<Slot>, n: nat, d: Date)
    requires n <= |slots|
    ensures d in DatesOf(slots, n) <==> exists i :: 0 <= i < n && slots[i].slotDate == d
  {
    if n > 0 {
      DatesOfMembers(slots, n - 1, d);
    }
  }

  /** Each date is a key once. */
  lemma {:induction false} DatesOfDistinct(slots: seq<Slot>, n: nat)
    requires n <= |slots|
    ensures forall i, j :: 0 <= i < j < |DatesOf(slots, n)| ==> DatesOf(slots, n)[i] != DatesOf(slots, n)[j]
  {
    if n > 0 {
      DatesOfDistinct(slots, n - 1);
    }
  }

  /**
   * Every slot lands in the group of its own date, at the place given by the
   * number of same-date slots before it: groups keep the input order, and
   * later slots only extend a group.
   */
  lemma {:induction false} OnDateKeepsOrder(slots: seq<Slot>, m: nat, n: nat)
    requires m < n <= |slots|
    ensures var d := slots[m].slotDate;
      OnDate(slots, m, d) + [slots[m]] <= OnDate(slots, n, d)
  {
    if n - 1 > m {
      OnDateKeepsOrder(slots, m, n - 1);
    }
  }

  /** The sizes of the groups of `dates` over the first `n` slots, summed over the first `k` dates. */
  function GroupSizes(slots: seq<Slot>, n: nat, dates: seq<Date>, k: nat): nat
    requires n <= |slots| && k <= |dates|
  {
    if k == 0 then 0 else GroupSizes(slots, n, dates, k - 1) + |OnDate(slots, n, dates[k - 1])|
  }

  lemma {:induction false} GroupSizesPrefix(slots: seq<Slot>, n: nat, dates: seq<Date>, x: Date, k: nat)
    requires n <= |slots| && k <= |dates|
    ensures GroupSizes(slots, n, dates + [x], k) == GroupSizes(slots, n, dates, k)
  {
    if k > 0 {
      GroupSizesPrefix(slots, n, dates, x, k - 1);
      assert (dates + [x])[k - 1] == dates[k - 1];
    }
  }

  /** One more slot adds one to the sum exactly when its date is among the dates summed. */
  lemma {:induction false} GroupSizesStep(slots: seq<Slot>, n: nat, dates: seq<Date>, k: nat)
    requires n < |slots| && k <= |dates|
    requires forall i, j :: 0 <= i < j < |dates| ==> dates[i] != dates[j]
    ensures GroupSizes(slots, n + 1, dates, k) ==
      GroupSizes(slots, n, dates, k) + (if slots[n].slotDate in dates[..k] then 1 else 0)
  {
    if k > 0 {
      GroupSizesStep(slots, n, dates, k - 1);
      assert dates[..k] == dates[..k - 1] + [dates[k - 1]];
    }
  }

  /** A date none of the first `m` slots carries adds an empty group to the sum. */
  lemma GroupSizesNewDate(slots: seq<Slot>, m: nat, dates: seq<Date>, x: Date)
    requires m <= |slots|
    requires forall i :: 0 <= i < m ==> slots[i].slotDate != x
    ensures GroupSizes(slots, m, dates + [x], |dates| + 1) == GroupSizes(slots, m, dates, |dates|)
  {
    GroupSizesPrefix(slots, m, dates, x, |dates|);
    OnDateEmpty(slots, m, x);
    assert (dates + [x])[|dates|] == x;
  }

  /** Counting one more slot over the same keys adds one: its date is a key, and only once. */
  lemma GroupSizesAddSlot(slots: seq<Slot>, n: nat)
    requires 0 < n <= |slots|
    ensures var dates := DatesOf(slots, n);
      GroupSizes(slots, n, dates, |dates|) == GroupSizes(slots, n - 1, dates, |dates|) + 1
  {
    var dates := DatesOf(slots, n);
    DatesOfDistinct(slots, n);
    DatesOfMembers(slots, n, slots[n - 1].slotDate);
    GroupSizesStep(slots, n - 1, dates, |dates|);
    assert dates[..|dates|] == dates;
  }

  /** The keys one slot may add hold no earlier slot. */
  lemma GroupSizesSameKeys(slots: seq<Slot>, n: nat)
    requires 0 < n <= |slots|
    ensures var before := DatesOf(slots, n - 1);
      var after := DatesOf(slots, n);
      GroupSizes(slots, n - 1, after, |after|) == GroupSizes(slots, n - 1, before, |before|)
  {
    var before := DatesOf(slots, n - 1);
    var x := slots[n - 1].slotDate;
    if x !in before {
      DatesOfMembers(slots, n - 1, x);
      GroupSizesNewDate(slots, n - 1, before, x);
    }
  }

  /** The group sizes add up to the number of slots: no slot is lost or counted twice. */
  lemma {:induction false} GroupSizesSum(slots: seq<Slot>, n: nat)
    requires n <= |slots|
    ensures GroupSizes(slots, n, DatesOf(slots, n), |DatesOf(slots, n)|) == n
  {
    if n > 0 {
      GroupSizesSum(slots, n - 1);
      GroupSizesAddSlot(slots, n);
      GroupSizesSameKeys(slots, n);
    }
  }

  /** A date no slot carries has an empty group. */
  lemma {:induction false} OnDateEmpty(slots: seq<Slot>, n: nat, d: Date)
    requires n <= |slots|
    requires forall i :: 0 <= i < n ==> slots[i].slotDate != d
    ensures OnDate(slots, n, d) == []
  {
    if n > 0 {
      OnDateEmpty(slots, n - 1, d);
    }
  }

  /** Every slot sits in the group of its own date, and its date is a key. */
  lemma SlotInItsGroup(slots: seq<Slot>, i: nat)
    requires i < |slots|
    ensures slots[i] in OnDate(slots, |slots|, slots[i].slotDate)
    ensures slots[i].slotDate in DatesOf(slots, |slots|)
  {
    OnDateKeepsOrder(slots, i, |slots|);
    var d := slots[i].slotDate;
    assert (OnDate(slots, i, d) + [slots[i]])[|OnDate(slots, i, d)|] == slots[i];
    DatesOfMembers(slots, |slots|, d);
  }

  // ---------------------------------------------------------------------
  // The patient form
  // ---------------------------------------------------------------------

  /** The `name` attributes of the form's inputs. */
  datatype Field = FullName | DateOfBirth | Gender | Phone | Email | Address | Notes

  /** `patientData`: the text of each input, '' until typed into. */
  datatype PatientForm = PatientForm(
    fullName: string, dateOfBirth: string, gender: string, phone: string,
    email: string, address: string, notes: string)

  const EmptyForm := PatientForm("", "", "", "", "", "", "")

  /** `patientData[name]`. */
  function FieldValue(form: PatientForm, name: Field): string {
    match name
    case FullName => form.fullName
    case DateOfBirth => form.dateOfBirth
    case Gender => form.gender
    case Phone => form.phone
    case Email => form.email
    case Address => form.address
    case Notes => form.notes
  }

  /** `{ ...prev, [name]: value }`: the named input takes the typed text, the others keep theirs. */
  function HandleInputChange(form: PatientForm, name: Field, value: string): (r: PatientForm)
    ensures FieldValue(r, name) == value
    ensures forall other :: other != name ==> FieldValue(r, other) == FieldValue(form, other)
  {
    match name
    case FullName => form.(fullName := value)
    case DateOfBirth => form.(dateOfBirth := value)
    case Gender => form.(gender := value)
    case Phone => form.(phone := value)
    case Email => form.(email := value)
    case Address => form.(address := value)
    case Notes => form.(notes := value)
  }

  /** A form is nothing but the text of its seven inputs. */
  lemma FormOfFields(a: PatientForm, b: PatientForm)
    requires forall name :: FieldValue(a, name) == FieldValue(b, name)
    ensures a == b
  {
    assert FieldValue(a, FullName) == FieldValue(b, FullName);
    assert FieldValue(a, DateOfBirth) == FieldValue(b, DateOfBirth);
    assert FieldValue(a, Gender) == FieldValue(b, Gender);
    assert FieldValue(a, Phone) == FieldValue(b, Phone);
    assert FieldValue(a, Email) == FieldValue(b, Email);
    assert FieldValue(a, Address) == FieldValue(b, Address);
    assert FieldValue(a, Notes) == FieldValue(b, Notes);
  }

  /** Typing into two different inputs gives the same form in either order; typing twice keeps the last text. */
  lemma InputChangesCommute(form: PatientForm, x: Field, u: string, y: Field, v: string)
    ensures x != y ==>
      HandleInputChange(HandleInputChange(form, x, u), y, v) == HandleInputChange(HandleInputChange(form, y, v), x, u)
    ensures x == y ==> HandleInputChange(HandleInputChange(form, x, u), y, v) == HandleInputChange(form, y, v)
  {
    var a := HandleInputChange(HandleInputChange(form, x, u), y, v);
    var b := if x != y then HandleInputChange(HandleInputChange(form, y, v), x, u) else HandleInputChange(form, y, v);
    FormOfFields(a, b);
  }

  // ---------------------------------------------------------------------
  // handleSubmit
  // ---------------------------------------------------------------------

  const SelectSlotMessage := "Please select a time slot"
  const RequiredFieldsMessage := "Please fill in all required fields"
  const BookingFailedMessage := "Failed to book appointment. Please try again."

  /** The inputs marked required are all non-empty. */
  predicate RequiredFilled(form: PatientForm) {
    form.fullName != "" && form.dateOfBirth != "" && form.gender != "" && form.phone != ""
  }

  /** `text || null`: an empty input is sent as null. */
  function OrNull(text: string): (r: Option<string>)
    ensures r.None? <==> text == ""
    ensures r.Some? ==> r.value == text
  {
    if text == "" then None else Some(text)
  }

  /** The body of the patient request: the required inputs as typed, e-mail and address or null. */
  function PatientRequest(form: PatientForm): (b: PatientBody)
    ensures RequiredFilled(form) <==> PatientFieldsPresent(b)
    ensures b.email == OrNull(form.email) && b.address == OrNull(form.address)
  {
    PatientBody(Some(form.fullName), Some(form.dateOfBirth), Some(form.gender), Some(form.phone),
                OrNull(form.email), OrNull(form.address))
  }

  /**
   * The body of the appointment request: the created patient's id, the route's
   * doctor id through `parseInt` (NaN is sent as null), the selected slot's id,
   * date and time, and the notes or null.
   */
  function AppointmentRequest(patient: Patient, doctorIdParam: string, slot: Slot, form: PatientForm): (b: AppointmentBody)
    ensures b.patientId == Some(patient.patientId) && b.doctorId == ParseInt(doctorIdParam)
    ensures b.slotId == Some(slot.slotId) && b.appointmentDate == Some(slot.slotDate)
    ensures b.appointmentTime == Some(slot.slotTime) && b.notes == OrNull(form.notes)
    ensures AppointmentFieldsPresent(b) <==> patient.patientId != 0 && BookableRequest(doctorIdParam, slot)
  {
    AppointmentBody(Some(patient.patientId), ParseInt(doctorIdParam), Some(slot.slotId),
                    Some(slot.slotDate), Some(slot.slotTime), OrNull(form.notes))
  }

  /** `err.response?.data?.error`: the message of an error response, `undefined` (here "") otherwise. */
  function ResponseError<T>(res: Response<T>): (message: string)
    ensures res.Error? ==> message == res.message
  {
    if res.Error? then res.message else ""
  }

  /** `err.response?.data?.error || 'Failed to book …'`. */
  function ErrorText(message: string): (e: string)
    ensures e != ""
    ensures message != "" ==> e == message
    ensures message == "" ==> e == BookingFailedMessage
  {
    if message != "" then message else BookingFailedMessage
  }

  /** The doctor passed in the navigation state, as the receipt shows it. */
  datatype Doctor = Doctor(fullName: string, categoryName: string)

  /** The state handed to the confirmation page. */
  datatype NavState = NavState(appointment: Appointment, patient: Patient, doctor: Doctor, slot: Slot)

  /** What one submit does: the tables after it, the requests sent in order, the error shown, where it navigates. */
  datatype SubmitResult = SubmitResult(
    tables: Tables, sent: seq<Request>, error: Option<string>, navigation: Option<NavState>)

  /**
   * `handleSubmit`: the two checks, then the patient request, then, with the
   * id it returns, the appointment request; any error response stops the
   * sequence and shows its message, and success navigates to the confirmation.
   */
  function Submit(t: Tables, doctorIdParam: string, doctor: Doctor, selected: Option<Slot>, form: PatientForm)
    : (r: SubmitResult)
    ensures selected.None? ==> r == SubmitResult(t, [], Some(SelectSlotMessage), None)
    ensures selected.Some? && !RequiredFilled(form) ==> r == SubmitResult(t, [], Some(RequiredFieldsMessage), None)
    ensures r.error.None? <==> r.navigation.Some?
    ensures r.error.Some? ==> r.error.value != ""
  {
    if selected.None? then SubmitResult(t, [], Some(SelectSlotMessage), None)
    else if !RequiredFilled(form) then SubmitResult(t, [], Some(RequiredFieldsMessage), None)
    else
      var pb := PatientRequest(form);
      var po := CreatePatientStep(t, pb);
      if po.response.Error? then
        SubmitResult(po.tables, [PostPatient(pb)], Some(ErrorText(ResponseError(po.response))), None)
      else
        var patient := po.response.body;
        var ab := AppointmentRequest(patient, doctorIdParam, selected.value, form);
        var ao := CreateAppointmentStep(po.tables, ab);
        var sent := [PostPatient(pb), PostAppointment(ab)];
        if ao.response.Error? then
          SubmitResult(ao.tables, sent, Some(ErrorText(ResponseError(ao.response))), None)
        else
          SubmitResult(ao.tables, sent, None, Some(NavState(ao.response.body, patient, doctor, selected.value)))
  }

  /** The appointment request is valid exactly when the route's id is a number other than 0 and the slot has an id and a time. */
  predicate BookableRequest(doctorIdParam: string, slot: Slot) {
    TruthyId(ParseInt(doctorIdParam)) && slot.slotId != 0 && slot.slotTime != ""
  }

  /**
   * Past the checks, the patient request always succeeds and comes first;
   * the appointment request follows with the returned patient id and the
   * selected slot.
   */
  lemma SubmitSendsPatientThenAppointment(
    t: Tables, doctorIdParam: string, doctor: Doctor, slot: Slot, form: PatientForm)
    requires RequiredFilled(form)
    ensures var r := Submit(t, doctorIdParam, doctor, Some(slot), form);
      var patient := Patient(t.nextPatientId, form.fullName, form.dateOfBirth, form.gender, form.phone,
                             OrNull(form.email), OrNull(form.address));
      r.sent == [PostPatient(PatientRequest(form)),
                 PostAppointment(AppointmentBody(Some(t.nextPatientId), ParseInt(doctorIdParam), Some(slot.slotId),
                                                 Some(slot.slotDate), Some(slot.slotTime), OrNull(form.notes)))]
      && CreatePatientStep(t, PatientRequest(form)).response == Ok(201, patient)
  {
  }

  /** Two requests handled one after the other. */
  lemma RunTwo(t: Tables, a: Request, b: Request)
    ensures Run(t, [a, b]).0 == Step(Step(t, a).0, b).0
  {
    var reqs := [a, b];
    assert reqs[..1] == [a];
    assert [a][..0] == [];
    assert Run(t, [a]).0 == Step(t, a).0;
  }

  /** The tables after a submit are the server's tables after the requests it sent. */
  lemma SubmitIsRun(t: Tables, doctorIdParam: string, doctor: Doctor, selected: Option<Slot>, form: PatientForm)
    ensures var r := Submit(t, doctorIdParam, doctor, selected, form);
      r.tables == Run(t, r.sent).0
  {
    var r := Submit(t, doctorIdParam, doctor, selected, form);
    if |r.sent| == 2 {
      RunTwo(t, r.sent[0], r.sent[1]);
      assert r.sent == [r.sent[0], r.sent[1]];
    }
  }

  /**
   * The confirmation is reached exactly when the checks pass, the appointment
   * request is valid and the selected slot still exists and is available.
   */
  lemma SubmitNavigatesIffBooked(t: Tables, doctorIdParam: string, doctor: Doctor, selected: Option<Slot>, form: PatientForm)
    requires WellFormed(t)
    ensures var r := Submit(t, doctorIdParam, doctor, selected, form);
      r.navigation.Some? <==>
        && selected.Some? && RequiredFilled(form) && BookableRequest(doctorIdParam, selected.value)
        && selected.value.slotId in t.slots && t.slots[selected.value.slotId].isAvailable
  {
  }

  /**
   * On success the confirmation carries the appointment booked on the selected
   * slot for the new patient, and that slot is now taken; on an appointment
   * failure the created patient stays.
   */
  lemma SubmitOutcome(t: Tables, doctorIdParam: string, doctor: Doctor, slot: Slot, form: PatientForm)
    requires WellFormed(t) && RequiredFilled(form)
    ensures var r := Submit(t, doctorIdParam, doctor, Some(slot), form);
      && |r.tables.patients| == |t.patients| + 1
      && r.tables.patients[|t.patients|].patientId == t.nextPatientId
      && (r.navigation.Some? ==>
            var nav := r.navigation.value;
            && nav.patient == r.tables.patients[|t.patients|]
            && nav.slot == slot && nav.doctor == doctor
            && nav.appointment.patientId == nav.patient.patientId
            && nav.appointment.slotId == slot.slotId
            && nav.appointment.appointmentDate == slot.slotDate
            && nav.appointment.appointmentTime == slot.slotTime
            && Some(nav.appointment.doctorId) == ParseInt(doctorIdParam)
            && slot.slotId in r.tables.slots && !r.tables.slots[slot.slotId].isAvailable)
      && (r.navigation.None? ==> r.tables.appointments == t.appointments && r.tables.slots == t.slots)
  {
  }

  // ---------------------------------------------------------------------
  // The page state that handleSubmit updates
  // ---------------------------------------------------------------------

  /** The booking page's React state, and the navigation it last asked for. */
  class BookingState {
    var selectedSlot: Option<Slot>
    var patientData: PatientForm
    var submitting: bool
    var error: Option<string>
    var navigation: Option<NavState>

    constructor ()
      ensures selectedSlot == None && patientData == EmptyForm
      ensures !submitting && error == None && navigation == None
    {
      selectedSlot, patientData := None, EmptyForm;
      submitting, error, navigation := false, None, None;
    }

    /** The `onChange` of an input. */
    method OnInputChange(name: Field, value: string)
      modifies this`patientData
      ensures patientData == HandleInputChange(old(patientData), name, value)
    {
      patientData := HandleInputChange(patientData, name, value);
    }

    /**
     * The submit handler against the server: the checks set an error and
     * return; otherwise it clears the error, sends the requests and ends with
     * `submitting` false.
     */
    method HandleSubmit(db: Database, doctorIdParam: string, doctor: Doctor)
      requires db.Valid()
      modifies this`submitting, this`error, this`navigation, db
      ensures db.Valid()
      ensures var r := Submit(old(db.State()), doctorIdParam, doctor, selectedSlot, patientData);
        && db.State() == r.tables
        && error == r.error
        && navigation == (if r.navigation.Some? then r.navigation else old(navigation))
        && submitting == (if r.sent == [] then old(submitting) else false)
    {
      if selectedSlot.None? {
        error := Some(SelectSlotMessage);
        return;
      }
      if patientData.fullName == "" || patientData.dateOfBirth == "" ||
         patientData.gender == "" || patientData.phone == "" {
        error := Some(RequiredFieldsMessage);
        return;
      }
      submitting := true;
      error := None;
      SendBooking(db, doctorIdParam, doctor, selectedSlot.value);
      submitting := false;
    }

    /**
     * The `try` block: create the patient, book the appointment for the
     * returned id and navigate, or show the error response.
     */
    method SendBooking(db: Database, doctorIdParam: string, doctor: Doctor, slot: Slot)
      requires db.Valid() && RequiredFilled(patientData)
      modifies this`error, this`navigation, db
      ensures db.Valid()
      ensures var r := Submit(old(db.State()), doctorIdParam, doctor, Some(slot), patientData);
        && db.State() == r.tables
        && |r.sent| == 2
        && (error == if r.error.Some? then r.error else old(error))
        && navigation == (if r.navigation.Some? then r.navigation else old(navigation))
    {
      ghost var t := db.State();
      var patientResponse := db.CreatePatient(PatientRequest(patientData));
      // the checks in HandleSubmit are the server's own, so the patient is always created
      var patient := patientResponse.body;
      var body := AppointmentRequest(patient, doctorIdParam, slot, patientData);
      ghost var t1 := db.State();
      var appointmentResponse := db.CreateAppointment(body);
      assert db.State() == CreateAppointmentStep(t1, body).tables;
      if appointmentResponse.Error? {
        error := Some(ErrorText(ResponseError(appointmentResponse)));
      } else {
        navigation := Some(NavState(appointmentResponse.body, patient, doctor, slot));
      }
    }
  }
}
