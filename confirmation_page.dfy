/**
 * The confirmation page: the receipt it renders from the navigation state
 * the booking page hands over, with the zero-padded booking id and the
 * 12-hour time label, or the fallback when there is no booking.
 */
module ConfirmationPage {
  import opened Wrappers
  import opened Text
  import opened Server
  import opened BookingPage

  /** `appointment_id.toString().padStart(6, '0')`. */
  function BookingId(appointmentId: int): (r: string)
    ensures |r| >= 6 && |r| >= |IntToDecimal(appointmentId)|
    ensures |IntToDecimal(appointmentId)| >= 6 ==> r == IntToDecimal(appointmentId)
    ensures |IntToDecimal(appointmentId)| < 6 ==> |r| == 6
  {
    PadStart(IntToDecimal(appointmentId), 6, '0')
  }

  /** The padded id is all digits and reads back, as a number and through `parseInt`, as the id. */
  lemma BookingIdRoundTrip(appointmentId: nat)
    ensures AllDigits(BookingId(appointmentId))
    ensures DecimalValue(BookingId(appointmentId)) == appointmentId
    ensures ParseInt(BookingId(appointmentId)) == Some(appointmentId)
  {
    var digits := NatToDecimal(appointmentId);
    var r := BookingId(appointmentId);
    assert r == Repeat('0', |r| - |digits|) + digits;
    LeadingZerosIgnored(|r| - |digits|, digits);
    DecimalRoundTrip(appointmentId);
    assert r + [] == r;
    ParseIntOfDigits(r, []);
  }

  /** Two ids have the same booking text only if they are the same id. */
  lemma BookingIdInjective(a: nat, b: nat)
    requires BookingId(a) == BookingId(b)
    ensures a == b
  {
    BookingIdRoundTrip(a);
    BookingIdRoundTrip(b);
  }

  /** `location.state`, whose members may each be missing; `None` for the whole is a direct visit. */
  datatype LocationState = LocationState(
    appointment: Option<Appointment>, patient: Option<Patient>, doctor: Option<Doctor>, slot: Option<Slot>)

  /** The navigation state as the booking page passes it. */
  function FromBooking(nav: NavState): LocationState {
    LocationState(Some(nav.appointment), Some(nav.patient), Some(nav.doctor), Some(nav.slot))
  }

  /** What the page shows. */
  datatype View =
    | NoBookingInformation
      /** `patient` or `doctor` missing while `appointment` is present: reading a member of undefined throws. */
    | RenderError
    | Receipt(
        bookingId: string, name: string, phone: string, dateOfBirth: string, gender: string,
        email: Option<string>, doctorName: string, category: string, department: string,
        date: Date, time: string)

  /**
   * The page: without an appointment only the fallback; otherwise the
   * receipt, where the e-mail row appears only for a non-empty e-mail.
   */
  function Render(state: Option<LocationState>): (v: View)
    ensures v.NoBookingInformation? <==> state.None? || state.value.appointment.None?
    ensures v.Receipt? <==>
      state.Some? && state.value.appointment.Some? && state.value.patient.Some? && state.value.doctor.Some?
    ensures v.Receipt? ==> v.bookingId == BookingId(state.value.appointment.value.appointmentId)
    ensures v.Receipt? ==> (v.email.Some? <==> TruthyText(state.value.patient.value.email))
  {
    if state.None? || state.value.appointment.None? then NoBookingInformation
    else if state.value.patient.None? || state.value.doctor.None? then RenderError
    else
      var a := state.value.appointment.value;
      var p := state.value.patient.value;
      var d := state.value.doctor.value;
      Receipt(BookingId(a.appointmentId), p.fullName, p.phone, p.dateOfBirth, p.gender,
              if TruthyText(p.email) then p.email else None,
              d.fullName, d.categoryName, d.categoryName + " Department",
              a.appointmentDate, FormatTime(a.appointmentTime))
  }

  /** The receipt for a booking page's navigation state shows that booking, under an id that reads back. */
  lemma ReceiptOfNavigation(nav: NavState)
    requires nav.appointment.appointmentId >= 0
    ensures var v := Render(Some(FromBooking(nav)));
      && v.Receipt?
      && ParseInt(v.bookingId) == Some(nav.appointment.appointmentId)
      && v.name == nav.patient.fullName && v.phone == nav.patient.phone && v.gender == nav.patient.gender
      && (v.email.Some? <==> TruthyText(nav.patient.email))
      && v.doctorName == nav.doctor.fullName && v.category == nav.doctor.categoryName
      && v.date == nav.appointment.appointmentDate && v.time == FormatTime(nav.appointment.appointmentTime)
  {
    BookingIdRoundTrip(nav.appointment.appointmentId);
  }

  /**
   * A booking that reaches the confirmation renders a receipt for it: the
   * booking id reads back to an appointment the server's lookup finds for
   * this patient, the patient's details are the form's, and the date and
   * time are the selected slot's.
   */
  lemma ReceiptOfBooking(t: Tables, doctorIdParam: string, doctor: Doctor, slot: Slot, form: PatientForm)
    requires WellFormed(t)
    requires Submit(t, doctorIdParam, doctor, Some(slot), form).navigation.Some?
    ensures var r := Submit(t, doctorIdParam, doctor, Some(slot), form);
      var nav := r.navigation.value;
      var v := Render(Some(FromBooking(nav)));
      && v.Receipt?
      && ParseInt(v.bookingId) == Some(nav.appointment.appointmentId)
      && AppointmentLookup(r.tables, nav.appointment.appointmentId) ==
           Ok(200, AppointmentDetails(nav.appointment, form.fullName, form.phone, OrNull(form.email)))
      && v.name == form.fullName && v.phone == form.phone && v.gender == form.gender
      && (v.email.Some? <==> form.email != "")
      && v.doctorName == doctor.fullName
      && v.date == slot.slotDate && v.time == FormatTime(slot.slotTime)
  {
    var pb := PatientRequest(form);
    var po := CreatePatientStep(t, pb);
    var ab := AppointmentRequest(po.response.body, doctorIdParam, slot, form);
    BookedAppointmentIsFound(t, pb, ab);
    ReceiptOfNavigation(Submit(t, doctorIdParam, doctor, Some(slot), form).navigation.value);
  }

  /**
   * For a slot whose time column reads "HH:MM:SS", the receipt shows the
   * 12-hour hour, the minutes as stored and AM before noon, PM from noon.
   */
  lemma ReceiptTime(state: LocationState, h: nat, m: nat, s: nat)
    requires state.appointment.Some? && state.patient.Some? && state.doctor.Some?
    requires h < 24 && m < 60 && s < 60
    requires state.appointment.value.appointmentTime == ClockText(h, m, s)
    ensures Render(Some(state)).time ==
      NatToDecimal(TwelveHour(h)) + ":" + TwoDigits(m) + " " + (if h < 12 then "AM" else "PM")
  {
    FormatTimeOfClock(h, m, s);
  }
}
