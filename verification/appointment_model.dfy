/**
 The Appointment schema (backend/models/Appointment.js): the owning user,
 the pet, a service from a fixed list, date, time and veterinarian, all
 required; a status from a fixed list defaulting to Pending; optional notes.
 Strings are kept as stored, so a status written without validation may lie
 outside the list; `null` is None.
 */
module AppointmentModel {
  import opened Js
  import opened Options
  import opened Http

  const ServiceTypes: seq<string> := ["Vaccination", "Grooming", "Checkup", "Surgery", "Dental"]
  const Statuses: seq<string> := ["Pending", "Confirmed", "Completed", "Cancelled"]
  const DefaultStatus := "Pending"

  datatype Appointment = Appointment(
    id: string,
    petOwner: string,
    petName: string,
    petType: string,
    serviceType: string,
    appointmentDate: int,
    appointmentTime: string,
    veterinarian: string,
    status: Option<string>,
    notes: Option<string>,
    createdAt: int)

  function AppointmentId(a: Appointment): string { a.id }

  /** The schema's validators: required strings non-empty, an ObjectId owner,
      and both enums (the status enum admits `null`). */
  predicate ValidAppointment(a: Appointment) {
    && IsId(a.petOwner)
    && |a.petName| > 0 && |a.petType| > 0
    && a.serviceType in ServiceTypes
    && |a.appointmentTime| > 0 && |a.veterinarian| > 0
    && (a.status.Some? ==> a.status.value in Statuses)
  }

  /** The body fields a new appointment is built from, as the client sent them. */
  datatype AppointmentBody = AppointmentBody(
    petOwner: Value,
    petName: Value,
    petType: Value,
    serviceType: Value,
    appointmentDate: Value,
    appointmentTime: Value,
    veterinarian: Value,
    status: Value,
    notes: Value)

  /** How values are cast for the schema: to a date (None is a cast error),
      and how a number is written when cast to a String. */
  datatype AppointmentCasts = AppointmentCasts(castDate: Value -> Option<int>, renderNumber: real -> string)

  /** A required String path: present and non-empty after the cast. */
  predicate RequiredString(v: Value, casts: AppointmentCasts) {
    StringOf(v, casts.renderNumber).Some? && |StringOf(v, casts.renderNumber).value| > 0
  }

  /** The stored status of a new document: the default when absent, `null`
      when null, otherwise the value as a string; None when the enum
      rejects it. */
  function InitialStatus(v: Value, casts: AppointmentCasts): (r: Option<Option<string>>)
    ensures v == Undefined ==> r == Some(Some(DefaultStatus))
    ensures v == Null ==> r == Some(None)
    ensures r.Some? && r.value.Some? ==> r.value.value in Statuses
    ensures v != Undefined && v != Null ==> (r.Some? <==> StringOf(v, casts.renderNumber).value in Statuses)
  {
    if v == Undefined then Some(Some(DefaultStatus))
    else if v == Null then Some(None)
    else
      var s := StringOf(v, casts.renderNumber).value;
      if s in Statuses then Some(Some(s)) else None
  }

  /** `new Appointment(doc)` followed by `save()`: casting, the default and
      the validators. None is a validation error. */
  function NewAppointment(b: AppointmentBody, owner: string, casts: AppointmentCasts, id: string, now: int)
    : (r: Option<Appointment>)
    ensures r.Some? <==>
      && RequiredString(b.petName, casts) && RequiredString(b.petType, casts)
      && RequiredString(b.serviceType, casts) && StringOf(b.serviceType, casts.renderNumber).value in ServiceTypes
      && b.appointmentDate != Undefined && b.appointmentDate != Null && casts.castDate(b.appointmentDate).Some?
      && RequiredString(b.appointmentTime, casts) && RequiredString(b.veterinarian, casts)
      && InitialStatus(b.status, casts).Some?
    ensures r.Some? ==>
      && r.value.id == id && r.value.createdAt == now && r.value.petOwner == owner
      && Some(r.value.petName) == StringOf(b.petName, casts.renderNumber)
      && Some(r.value.serviceType) == StringOf(b.serviceType, casts.renderNumber)
      && Some(r.value.appointmentDate) == casts.castDate(b.appointmentDate)
      && r.value.status == InitialStatus(b.status, casts).value
      && r.value.notes == StringOf(b.notes, casts.renderNumber)
      && (IsId(owner) ==> ValidAppointment(r.value))
  {
    var str := (v: Value) => StringOf(v, casts.renderNumber);
    if && RequiredString(b.petName, casts) && RequiredString(b.petType, casts)
       && RequiredString(b.serviceType, casts) && str(b.serviceType).value in ServiceTypes
       && b.appointmentDate != Undefined && b.appointmentDate != Null && casts.castDate(b.appointmentDate).Some?
       && RequiredString(b.appointmentTime, casts) && RequiredString(b.veterinarian, casts)
       && InitialStatus(b.status, casts).Some?
    then
      Some(Appointment(id, owner, str(b.petName).value, str(b.petType).value, str(b.serviceType).value,
                       casts.castDate(b.appointmentDate).value, str(b.appointmentTime).value, str(b.veterinarian).value,
                       InitialStatus(b.status, casts).value, str(b.notes), now))
    else None
  }
}
