/** Consultation bookings: the caller's appointments and a doctor's
    appointments in (date, time) order, booking an appointment from a
    "start - end" time slot, and the per-month statistics.  Booking looks
    at neither availability slots nor existing appointments, so nothing
    here rules out two bookings of the same slot. */
module Appointments {
  import opened Base
  import opened Store
  import opened Seqs
  import opened Text
  import opened Ordering
  import opened Monthly

  /** ORDER BY date ASC, time ASC. */
  predicate ByDateTime(a: Appointment, b: Appointment) {
    (DateLe(a.date, b.date) && a.date != b.date) || (a.date == b.date && StrLe(a.time, b.time))
  }

  lemma ByDateTimeIsPreorder()
    ensures TotalPreorder(ByDateTime)
  {
    forall a: Appointment, b: Appointment
      ensures ByDateTime(a, b) || ByDateTime(b, a)
    {
      StrLeTotal(a.time, b.time);
    }
    forall a: Appointment, b: Appointment, c: Appointment | ByDateTime(a, b) && ByDateTime(b, c)
      ensures ByDateTime(a, c)
    {
      if a.date == b.date && b.date == c.date {
        StrLeTrans(a.time, b.time, c.time);
      }
    }
  }

  /** The rows of `rows` that satisfy `p`, sorted by (date, time). */
  function SortedWhere(rows: seq<Appointment>, p: Appointment -> bool): (r: seq<Appointment>)
    ensures multiset(r) == multiset(Where(rows, p))
    ensures forall a :: a in r <==> a in rows && p(a)
    ensures Sorted(r, ByDateTime)
  {
    ByDateTimeIsPreorder();
    var sorted := SortBy(Where(rows, p), ByDateTime);
    assert forall a :: a in sorted <==> a in multiset(Where(rows, p));
    sorted
  }

  /** 401 without a token, 500 when it fails verification; otherwise
      exactly the caller's appointments (as a multiset), in (date, time)
      order. */
  function GetAllAppointments(appointments: seq<Appointment>, token: Token)
    : (r: Reply<seq<Appointment>>)
    ensures token.NoToken? ==> r == Fail(401, "No token provided")
    ensures token.BadToken? ==> r == Fail(500, "Something went wrong.")
    ensures token.Verified? ==>
      && r.status == 200 && r.body.Some?
      && (forall a :: a in r.body.value <==> a in appointments && a.userId == token.claims.userId)
      && multiset(r.body.value)
         == multiset(Where(appointments, (a: Appointment) => a.userId == token.claims.userId))
      && Sorted(r.body.value, ByDateTime)
  {
    match token
    case NoToken => Fail(401, "No token provided")
    case BadToken => Fail(500, "Something went wrong.")
    case Verified(claims) =>
      var mine := SortedWhere(appointments, (a: Appointment) => a.userId == claims.userId);
      Reply(200, "", Some(mine))
  }

  /** 401 without a token, 500 when it fails verification, 403 when the
      caller has no Doctor profile; otherwise exactly that doctor's
      appointments, in (date, time) order. */
  function GetDoctorAppointments(doctors: seq<Doctor>, appointments: seq<Appointment>, token: Token)
    : (r: Reply<seq<Appointment>>)
    ensures token.NoToken? ==> r == Fail(401, "No token provided")
    ensures token.BadToken? ==> r == Fail(500, "Something went wrong.")
    ensures token.Verified? && DoctorOfUser(doctors, token.claims.userId).None? ==>
      r == Fail(403, "No doctor found for this user")
    ensures token.Verified? && DoctorOfUser(doctors, token.claims.userId).Some? ==>
      var d := DoctorOfUser(doctors, token.claims.userId).value;
      && r.status == 200 && r.body.Some?
      && (forall a :: a in r.body.value <==> a in appointments && a.doctorId == d.id)
      && multiset(r.body.value) == multiset(Where(appointments, (a: Appointment) => a.doctorId == d.id))
      && Sorted(r.body.value, ByDateTime)
  {
    match token
    case NoToken => Fail(401, "No token provided")
    case BadToken => Fail(500, "Something went wrong.")
    case Verified(claims) =>
      match DoctorOfUser(doctors, claims.userId)
      case None => Fail(403, "No doctor found for this user")
      case Some(d) =>
        var theirs := SortedWhere(appointments, (a: Appointment) => a.doctorId == d.id);
        Reply(200, "", Some(theirs))
  }

  /** The request body of createAppointment; 0, "" and None are absent. */
  datatype Booking = Booking(doctorId: Id, userId: Id, date: Option<Date>, timeSlot: string,
                             remarks: string)

  /** `timeSlot.split(" - ")[0]`: the start of a "start - end" slot. */
  function StartTime(timeSlot: string): string {
    BeforeFirst(timeSlot, " - ")
  }

  /** The start of a slot written "start - end" is `start`, when `start`
      has no dash of its own. */
  lemma StartTimeOfSlot(start: string, end: string)
    requires '-' !in start
    ensures StartTime(start + " - " + end) == start
  {
    var s := start + " - " + end;
    assert OccursAt(s, " - ", |start|) by {
      assert s[|start|..|start| + 3] == " - ";
    }
    forall j | 0 <= j < |start|
      ensures !OccursAt(s, " - ", j)
    {
      if j + 1 < |start| {
        assert s[j + 1] == start[j + 1];
      } else {
        assert s[j + 1] == ' ';
      }
      assert s[j + 1] != '-';
      assert j + 3 <= |s| ==> s[j..j + 3][1] == s[j + 1];
    }
    BeforeFirstSpec(s, " - ");
  }

  /** A slot with no " - " is kept whole. */
  lemma StartTimeWithoutSeparator(timeSlot: string)
    requires !Contains(timeSlot, " - ")
    ensures StartTime(timeSlot) == timeSlot
  {
    BeforeFirstSpec(timeSlot, " - ");
  }

  /** 400 and nothing stored when doctor, user, date or slot is missing.
      Otherwise one appointment is stored with the slot's start time and
      status "Pending"; no slot or other appointment is consulted or
      changed. */
  method CreateAppointment(db: Database, b: Booking) returns (r: Reply<Appointment>)
    requires db.Valid()
    modifies db`appointments, db`nextId
    ensures db.Valid()
    ensures b.doctorId == 0 || b.userId == 0 || b.date.None? || b.timeSlot == "" ==>
      r == Fail(400, "Required fields are missing") && unchanged(db)
    ensures b.doctorId != 0 && b.userId != 0 && b.date.Some? && b.timeSlot != "" ==>
      var a := Appointment(old(db.nextId), b.doctorId, b.userId, b.date.value,
                           StartTime(b.timeSlot), b.remarks, "Pending");
      && r == Reply(201, "Appointment created successfully", Some(a))
      && db.appointments == old(db.appointments) + [a]
      && db.nextId == old(db.nextId) + 1
  {
    if b.doctorId == 0 || b.userId == 0 || b.date.None? || b.timeSlot == "" {
      return Fail(400, "Required fields are missing");
    }
    var a := db.CreateAppointment(Appointment(0, b.doctorId, b.userId, b.date.value,
                                              StartTime(b.timeSlot), b.remarks, "Pending"));
    return Reply(201, "Appointment created successfully", Some(a));
  }

  /** The date of each appointment, in table order. */
  function AppointmentDates(appointments: seq<Appointment>): seq<Date> {
    DatesOf(appointments, (a: Appointment) => a.date)
  }

  /** 400 without a year; otherwise twelve counts, entry i holding the
      appointments dated in month i + 1 of that year. */
  function GetMonthlyAppointments(appointments: seq<Appointment>, year: Option<nat>)
    : (r: Reply<seq<nat>>)
    ensures year.None? ==> r == Fail(400, "Year is required (e.g., ?year=2025)")
    ensures year.Some? ==>
      && r.status == 200 && r.body.Some? && |r.body.value| == 12
      && forall i :: 0 <= i < 12 ==> r.body.value[i] == InMonth(AppointmentDates(appointments), year.value, i + 1)
  {
    match MonthlyReply(AppointmentDates(appointments), year)
    case None => Fail(400, "Year is required (e.g., ?year=2025)")
    case Some(counts) => Reply(200, "", Some(counts))
  }
}
