/**
 The appointment handlers (backend/controllers/AppointmentController.js):
 booking, the caller's own list, the full list with owner details, and the
 status update. All run behind `protect` only.
 */
module AppointmentController {
  import opened Js
  import opened Options
  import opened Seqs
  import opened Http
  import opened UserModel
  import opened AuthMiddleware
  import opened AppointmentModel

  /** `createAppointment`: the body is spread into the document and the
      caller written over any `petOwner` it held; a document the schema
      rejects is a 400 and nothing is stored. */
  function CreateAppointment(appts: seq<Appointment>, body: AppointmentBody, callerId: string, casts: AppointmentCasts,
                             newId: string, now: int): (h: Handled<Appointment, seq<Appointment>>)
    ensures NewAppointment(body, callerId, casts, newId, now).None? <==>
              h == Handled(Fail(BadRequest, ValidationError), appts)
    ensures NewAppointment(body, callerId, casts, newId, now).Some? ==>
              var a := NewAppointment(body, callerId, casts, newId, now).value;
              h == Handled(Created(a), appts + [a])
    ensures h.reply.Success() ==>
      && h.reply.Created?
      && h.reply.value.petOwner == callerId
      && h.store == appts + [h.reply.value]
      && (body.status == Undefined ==> h.reply.value.status == Some(DefaultStatus))
      && (IsId(callerId) ==> ValidAppointment(h.reply.value))
  {
    match NewAppointment(body, callerId, casts, newId, now)
    case Some(a) => Handled(Created(a), appts + [a])
    case None => Handled(Fail(BadRequest, ValidationError), appts)
  }

  /** The owner named in the body plays no part: the outcome is the same
      whatever it holds. */
  lemma CreateIgnoresBodyOwner(appts: seq<Appointment>, body: AppointmentBody, callerId: string, casts: AppointmentCasts,
                               newId: string, now: int, other: Value)
    ensures CreateAppointment(appts, body.(petOwner := other), callerId, casts, newId, now)
         == CreateAppointment(appts, body, callerId, casts, newId, now)
  {
  }

  /** `getUserAppointments`: exactly the caller's appointments, in stored order. */
  function GetUserAppointments(appts: seq<Appointment>, callerId: string): (r: seq<Appointment>)
    ensures forall a | a in r :: a in appts && a.petOwner == callerId
    ensures forall a | a in appts :: a in r <==> a.petOwner == callerId
    ensures |r| == Count(appts, (a: Appointment) => a.petOwner == callerId)
  {
    Filter(appts, (a: Appointment) => a.petOwner == callerId)
  }

  /** A booking shows up in its owner's list, after the earlier ones. */
  lemma BookedAppearsInOwnList(appts: seq<Appointment>, body: AppointmentBody, callerId: string, casts: AppointmentCasts,
                               newId: string, now: int)
    requires CreateAppointment(appts, body, callerId, casts, newId, now).reply.Success()
    ensures var h := CreateAppointment(appts, body, callerId, casts, newId, now);
      GetUserAppointments(h.store, callerId) == GetUserAppointments(appts, callerId) + [h.reply.value]
  {
    var h := CreateAppointment(appts, body, callerId, casts, newId, now);
    var a := h.reply.value;
    var p := (x: Appointment) => x.petOwner == callerId;
    FilterConcat(appts, [a], p);
    assert Filter([a], p) == [a] by {
      assert [a][1..] == [];
    }
  }

  /** The `name email` of a populated owner; None when the user is gone. */
  datatype OwnerInfo = OwnerInfo(id: string, name: Value, email: Value)
  datatype Populated = Populated(appointment: Appointment, owner: Option<OwnerInfo>)

  function Owner(users: seq<User>, a: Appointment): (r: Option<OwnerInfo>)
    ensures r.Some? <==> exists i :: 0 <= i < |users| && users[i].id == a.petOwner
    ensures r.Some? ==> exists u | u in users :: u.id == a.petOwner && r.value == OwnerInfo(u.id, u.name, u.email)
  {
    match FindKey(users, UserId, a.petOwner)
    case Found(i, u) =>
      assert users[i] in users;
      Some(OwnerInfo(u.id, u.name, u.email))
    case _ => None
  }

  /** `getAllAppointments`: every appointment, whoever asks, each with its
      owner's name and email joined in. */
  function GetAllAppointments(appts: seq<Appointment>, users: seq<User>): (r: seq<Populated>)
    ensures |r| == |appts|
    ensures forall i :: 0 <= i < |appts| ==> r[i].appointment == appts[i] && r[i].owner == Owner(users, appts[i])
  {
    seq(|appts|, i requires 0 <= i < |appts| => Populated(appts[i], Owner(users, appts[i])))
  }

  /** `updateAppointmentStatus`: a malformed id is a 400; an unknown one
      answers success with `null`; otherwise only the status is written,
      without the enum check. An absent status leaves the record as it was. */
  function UpdateAppointmentStatus(appts: seq<Appointment>, rawId: string, status: Value, renderNumber: real -> string)
    : (h: Handled<Option<Appointment>, seq<Appointment>>)
    ensures CastId(rawId).None? <==> h == Handled(Fail(BadRequest, CastError), appts)
    ensures FindById(appts, AppointmentId, rawId).Absent? ==> h == Handled(Ok(None), appts)
    ensures FindById(appts, AppointmentId, rawId).Found? ==>
      var i := FindById(appts, AppointmentId, rawId).index;
      && h.reply.Ok? && h.reply.value.Some?
      && h.store == ReplaceAt(appts, i, h.reply.value.value)
      && h.reply.value.value.(status := appts[i].status) == appts[i]
      && h.reply.value.value.status == (if status == Undefined then appts[i].status else StringOf(status, renderNumber))
  {
    match FindById(appts, AppointmentId, rawId)
    case Malformed => Handled(Fail(BadRequest, CastError), appts)
    case Absent => Handled(Ok(None), appts)
    case Found(i, a) =>
      var b := if status == Undefined then a else a.(status := StringOf(status, renderNumber));
      Handled(Ok(Some(b)), ReplaceAt(appts, i, b))
  }

  /** Any string is accepted as a status, so a valid appointment can be
      left with a status outside the list. */
  lemma StatusUpdateUnchecked(appts: seq<Appointment>, rawId: string, s: string, renderNumber: real -> string)
    requires FindById(appts, AppointmentId, rawId).Found?
    requires s !in Statuses
    ensures var h := UpdateAppointmentStatus(appts, rawId, Str(s), renderNumber);
      h.reply.Ok? && h.reply.value.Some? && !ValidAppointment(h.reply.value.value)
  {
  }

  // ---------------------------------------------------------------------
  // The guard on `GET /all`

  /** The route for the full list, as mounted: `protect` alone, although it
      is marked as an admin route. */
  function AllAppointmentsGateAsWritten(cookie: Option<string>, verify: string -> Verified, users: seq<User>): (d: Decision)
    ensures d.Next? <==> exists u :: Names(cookie, verify, users, u)
  {
    Protect(cookie, verify, users)
  }

  /** Any signed-in user, admin or not, gets every appointment with every
      owner's name and email. */
  lemma PlainUserReadsAllAppointments(cookie: Option<string>, verify: string -> Verified, users: seq<User>, u: User)
    requires UniqueKeys(users, UserId)
    requires Names(cookie, verify, users, u) && u.role == UserRole
    ensures AllAppointmentsGateAsWritten(cookie, verify, users).Next?
    ensures AllAppointmentsGate(cookie, verify, users) == Deny(Forbidden, AdminOnlyMessage)
  {
    var p := Protect(cookie, verify, users);
    var v :| Names(cookie, verify, users, v) && p.user == Public(v);
    NamedUserUnique(cookie, verify, users, u, v);
  }

  /** The guard the route is meant to have: `protect`, then `adminOnly`. */
  function AllAppointmentsGate(cookie: Option<string>, verify: string -> Verified, users: seq<User>): (d: Decision)
    requires UniqueKeys(users, UserId)
    ensures d.Next? <==> exists u :: Names(cookie, verify, users, u) && u.role == AdminRole
  {
    AdminGateDecision(cookie, verify, users);
    AdminGate(cookie, verify, users)
  }
}
