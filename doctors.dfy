/** The doctor handlers: declaring and listing availability slots, the
    doctor directory with its display formatting, a doctor's own profile,
    and the profile update with its bounded retry on dropped
    connections.  Declaring a slot checks neither overlap nor existing bookings. */
module Doctors {
  import opened Base
  import opened Store
  import opened Seqs
  import opened Text
  import opened Ordering

  // ---------------------------------------------------------------------
  // createAvailability, getAvailabilitiesByDoctor

  /** The request body of createAvailability; 0, "" and None are absent. */
  datatype SlotForm = SlotForm(doctorId: Id, date: Option<Date>, startTime: string,
                               endTime: string, status: string)

  /** 400 and nothing stored when doctor, date, start or end is missing.
      Otherwise the slot is stored as given, with status "available" when
      none is given, whatever other slots the doctor has. */
  method CreateAvailability(db: Database, f: SlotForm) returns (r: Reply<Slot>)
    requires db.Valid()
    modifies db`slots, db`nextId
    ensures db.Valid()
    ensures f.doctorId == 0 || f.date.None? || f.startTime == "" || f.endTime == "" ==>
      r == Fail(400, "Missing required fields") && unchanged(db)
    ensures f.doctorId != 0 && f.date.Some? && f.startTime != "" && f.endTime != "" ==>
      var s := Slot(old(db.nextId), f.doctorId, f.date.value, f.startTime, f.endTime,
                    if f.status == "" then "available" else f.status);
      && r == Reply(201, "Availability created successfully", Some(s))
      && db.slots == old(db.slots) + [s]
      && db.nextId == old(db.nextId) + 1
  {
    if f.doctorId == 0 || f.date.None? || f.startTime == "" || f.endTime == "" {
      return Fail(400, "Missing required fields");
    }
    var status := if f.status == "" then "available" else f.status;
    var s := db.CreateSlot(Slot(0, f.doctorId, f.date.value, f.startTime, f.endTime, status));
    return Reply(201, "Availability created successfully", Some(s));
  }

  /** ORDER BY start_time ASC. */
  predicate ByStart(a: Slot, b: Slot) {
    StrLe(a.startTime, b.startTime)
  }

  lemma ByStartIsPreorder()
    ensures TotalPreorder(ByStart)
  {
    forall a: Slot, b: Slot ensures ByStart(a, b) || ByStart(b, a) {
      StrLeTotal(a.startTime, b.startTime);
    }
    forall a: Slot, b: Slot, c: Slot | ByStart(a, b) && ByStart(b, c) ensures ByStart(a, c) {
      StrLeTrans(a.startTime, b.startTime, c.startTime);
    }
  }

  /** 400 without a doctor or a date; otherwise exactly that doctor's
      slots on that date, earliest start first.  The doctor comes from the
      query string, so it is `None` only when missing or empty: "0" is a
      non-empty string and passes the check like any other key. */
  function GetAvailabilitiesByDoctor(slots: seq<Slot>, doctorId: Option<Id>, date: Option<Date>)
    : (r: Reply<seq<Slot>>)
    ensures doctorId.None? || date.None? ==> r == Fail(400, "doctorId and date are required")
    ensures doctorId.Some? && date.Some? ==>
      && r.status == 200 && r.body.Some?
      && (forall s :: s in r.body.value <==> s in slots && s.doctorId == doctorId.value && s.date == date.value)
      && multiset(r.body.value)
         == multiset(Where(slots, (s: Slot) => s.doctorId == doctorId.value && s.date == date.value))
      && Sorted(r.body.value, ByStart)
  {
    if doctorId.None? || date.None? then Fail(400, "doctorId and date are required")
    else
      var theirs := Where(slots, (s: Slot) => s.doctorId == doctorId.value && s.date == date.value);
      ByStartIsPreorder();
      var sorted := SortBy(theirs, ByStart);
      assert forall s :: s in sorted <==> s in multiset(theirs);
      assert forall s :: s in sorted <==> s in slots && s.doctorId == doctorId.value && s.date == date.value;
      Reply(200, "", Some(sorted))
  }

  // ---------------------------------------------------------------------
  // getAllDoctors

  /** "Dr. first middle last", the middle name and its space only when
      there is one. */
  function DisplayName(d: Doctor): (name: string)
    ensures d.middleName == "" ==> name == "Dr. " + d.firstName + " " + d.lastName
    ensures d.middleName != "" ==>
      name == "Dr. " + d.firstName + " " + d.middleName + " " + d.lastName
  {
    "Dr. " + d.firstName + " " + (if d.middleName != "" then d.middleName + " " else "") + d.lastName
  }

  /** The doctor's status as the directory shows it. */
  function StatusLabel(status: string): (shown: string)
    ensures shown == "Active" <==> status == "enabled"
    ensures shown == "Inactive" <==> status == "disabled"
    ensures shown == "Active" || shown == "Inactive" || shown == "Pending"
  {
    if status == "enabled" then "Active"
    else if status == "disabled" then "Inactive"
    else "Pending"
  }

  function FindField(fields: seq<Field>, id: Id): (r: Option<Field>)
    ensures r.Some? ==> r.value in fields && r.value.id == id
    ensures r.None? ==> forall f :: f in fields ==> f.id != id
  {
    if fields == [] then None
    else if fields[0].id == id then Some(fields[0])
    else FindField(fields[1..], id)
  }

  /** `doc.field?.name || "General"`. */
  function Specialty(fields: seq<Field>, d: Doctor): (s: string)
    ensures s != ""
    ensures s != "General" ==> exists f :: f in fields && f.id == d.fieldId && f.name == s
    ensures FindField(fields, d.fieldId).Some? && FindField(fields, d.fieldId).value.name != "" ==>
      s == FindField(fields, d.fieldId).value.name
    ensures FindField(fields, d.fieldId).None? || FindField(fields, d.fieldId).value.name == "" ==>
      s == "General"
  {
    match FindField(fields, d.fieldId)
    case Some(f) => if f.name != "" then f.name else "General"
    case None => "General"
  }

  function ImageUrl(d: Doctor): string {
    if d.validId != "" then "http://localhost:5000/uploads/" + d.validId
    else "https://picsum.photos/seed/defaultdoctor/200"
  }

  /** An appointment as the directory lists it. */
  datatype Booked = Booked(withWhom: string, status: string, dateTime: string)

  /** `${date}T${time}`. */
  function DateTime(a: Appointment): string {
    DateText(a.date) + "T" + a.time
  }

  function AsBooked(a: Appointment): Booked {
    Booked("User " + Decimal(a.userId), a.status, DateTime(a))
  }

  /** A doctor's appointments, one entry each, in the same order. */
  function BookedList(appointments: seq<Appointment>): (r: seq<Booked>)
    ensures |r| == |appointments|
    ensures forall k :: 0 <= k < |r| ==>
      && r[k].withWhom == "User " + Decimal(appointments[k].userId)
      && r[k].status == appointments[k].status && r[k].dateTime == DateTime(appointments[k])
  {
    seq(|appointments|, k requires 0 <= k < |appointments| => AsBooked(appointments[k]))
  }

  /** The "User <key>" label names the appointment's user: the key reads
      back from the text after "User ". */
  lemma BookedNamesItsUser(a: Appointment)
    ensures |AsBooked(a).withWhom| > 5 && AsBooked(a).withWhom[..5] == "User "
    ensures DecimalValue(AsBooked(a).withWhom[5..]) == a.userId
  {
    assert AsBooked(a).withWhom[5..] == Decimal(a.userId);
    DecimalRoundTrip(a.userId);
  }

  datatype Listing = Listing(name: string, specialty: string, status: string, imageUrl: string,
                             appointments: seq<Booked>)

  function Format(fields: seq<Field>, appointments: seq<Appointment>, d: Doctor): Listing {
    Listing(DisplayName(d), Specialty(fields, d), StatusLabel(d.status), ImageUrl(d),
            BookedList(Where(appointments, (a: Appointment) => a.doctorId == d.id)))
  }

  /** ORDER BY doctor_id ASC. */
  predicate ById(a: Doctor, b: Doctor) {
    a.id <= b.id
  }

  /** Every doctor once, in key order, each formatted with their own
      appointments. */
  function GetAllDoctors(doctors: seq<Doctor>, fields: seq<Field>, appointments: seq<Appointment>)
    : (r: seq<Listing>)
    ensures |r| == |doctors|
    ensures exists order: seq<Doctor> ::
      && multiset(order) == multiset(doctors) && Sorted(order, ById) && |order| == |r|
      && forall k :: 0 <= k < |r| ==> r[k] == Format(fields, appointments, order[k])
  {
    assert TotalPreorder(ById);
    var order := SortBy(doctors, ById);
    assert |order| == |multiset(order)|;
    seq(|order|, k requires 0 <= k < |order| => Format(fields, appointments, order[k]))
  }

  /** Each listed appointment belongs to the doctor, and every one of the
      doctor's appointments is listed. */
  lemma FormatListsOwnAppointments(fields: seq<Field>, appointments: seq<Appointment>, d: Doctor)
    ensures var own := Where(appointments, (a: Appointment) => a.doctorId == d.id);
      && |Format(fields, appointments, d).appointments| == |own|
      && (forall a :: a in own <==> a in appointments && a.doctorId == d.id)
  {
  }

  // ---------------------------------------------------------------------
  // getDoctorById

  /** As written: the role claim must be the literal text "doctor".  Login
      signs a bcrypt digest of the role instead, so its tokens never pass. */
  function GetDoctorById(doctors: seq<Doctor>, token: Token): (r: Reply<Doctor>)
    ensures token.NoToken? ==> r == Fail(401, "Authorization token missing.")
    ensures token.BadToken? ==> r == Fail(500, "Server error")
    ensures token.Verified? && token.claims.role != PlainRole("doctor") ==>
      r == Fail(403, "Access denied. Not a doctor.")
    ensures token.Verified? && token.claims.role == PlainRole("doctor") ==>
      match DoctorOfUser(doctors, token.claims.userId)
      case None => r == Fail(404, "Doctor profile not found.")
      case Some(d) => r == Reply(200, "", Some(d))
  {
    match token
    case NoToken => Fail(401, "Authorization token missing.")
    case BadToken => Fail(500, "Server error")
    case Verified(claims) =>
      if claims.role != PlainRole("doctor") then Fail(403, "Access denied. Not a doctor.")
      else
        match DoctorOfUser(doctors, claims.userId)
        case None => Fail(404, "Doctor profile not found.")
        case Some(d) => Reply(200, "", Some(d))
  }

  /** The role check as the rest of the code makes it: bcrypt.compare of
      "doctor" against the role claim. */
  function GetDoctorByIdFixed(doctors: seq<Doctor>, token: Token): (r: Reply<Doctor>)
    ensures token.NoToken? ==> r == Fail(401, "Authorization token missing.")
    ensures token.BadToken? ==> r == Fail(500, "Server error")
    ensures token.Verified? && !RoleIs("doctor", token.claims.role) ==>
      r == Fail(403, "Access denied. Not a doctor.")
    ensures token.Verified? && RoleIs("doctor", token.claims.role) ==>
      match DoctorOfUser(doctors, token.claims.userId)
      case None => r == Fail(404, "Doctor profile not found.")
      case Some(d) => r == Reply(200, "", Some(d))
  {
    match token
    case NoToken => Fail(401, "Authorization token missing.")
    case BadToken => Fail(500, "Server error")
    case Verified(claims) =>
      if !RoleIs("doctor", claims.role) then Fail(403, "Access denied. Not a doctor.")
      else
        match DoctorOfUser(doctors, claims.userId)
        case None => Fail(404, "Doctor profile not found.")
        case Some(d) => Reply(200, "", Some(d))
  }

  /** The token login signs for a user. */
  function LoginClaims(u: User, salt: nat): Claims {
    Claims(u.id, HashedRole(Bcrypt(u.role, salt)))
  }

  /** As written, a doctor with a profile who presents the token login
      gave them is refused with 403. */
  lemma LoggedInDoctorIsRefused(doctors: seq<Doctor>, u: User, salt: nat)
    ensures GetDoctorById(doctors, Verified(LoginClaims(u, salt))).status == 403
  {
  }

  /** With the digest compared, the same doctor gets their own profile. */
  lemma LoggedInDoctorGetsProfile(doctors: seq<Doctor>, u: User, salt: nat, d: Doctor)
    requires u.role == "doctor" && d in doctors && d.userId == u.id
    ensures GetDoctorByIdFixed(doctors, Verified(LoginClaims(u, salt))).status == 200
    ensures GetDoctorByIdFixed(doctors, Verified(LoginClaims(u, salt))).body.value.userId == u.id
  {
    assert RoleIs("doctor", HashedRole(Bcrypt(u.role, salt)));
  }

  /** Users of other roles are still refused. */
  lemma OtherRolesStillRefused(doctors: seq<Doctor>, u: User, salt: nat)
    requires u.role != "doctor"
    ensures GetDoctorByIdFixed(doctors, Verified(LoginClaims(u, salt))).status == 403
  {
  }

  // ---------------------------------------------------------------------
  // updateDoctorProfile

  const MaxRetries: nat := 3

  /** A database error: its `name`, the driver error's `code` when it wraps
      one (`error.parent.code`) and its message. */
  datatype DbError = DbError(name: string, parentCode: Option<string>, message: string)

  /** What goes wrong in one attempt, beyond the store's own constraints:
      an error raised by the email update or by the profile update. */
  datatype Fault = Fault(atEmail: Option<DbError>, atProfile: Option<DbError>)

  /** The fields of the request body; "" / None are absent and not written. */
  datatype Patch = Patch(email: string, firstName: Option<string>, middleName: Option<string>,
                         lastName: Option<string>, contact: Option<string>,
                         validId: Option<string>, fieldId: Option<Id>)

  /** A dropped connection, the only error that is retried. */
  predicate IsReset(e: DbError) {
    e.parentCode == Some("ECONNRESET") || Contains(e.message, "ECONNRESET")
  }

  const UniqueViolation := DbError("SequelizeUniqueConstraintError", None, "Validation error")

  /** The unique index on users.email rejects the update: the caller's
      row exists and another user already has the email. */
  predicate EmailClash(users: seq<User>, userId: Id, email: string) {
    (exists u :: u in users && u.id == userId) &&
    (exists v :: v in users && v.id != userId && v.email == email)
  }

  /** User.update({ email }, { where: { user_id } }). */
  function WithEmail(users: seq<User>, userId: Id, email: string): (r: seq<User>)
    ensures |r| == |users|
    ensures forall k :: 0 <= k < |users| ==>
      && r[k].id == users[k].id && r[k].password == users[k].password && r[k].role == users[k].role
      && r[k].status == users[k].status && r[k].picture == users[k].picture
    ensures forall k :: 0 <= k < |users| && users[k].id == userId ==> r[k].email == email
    ensures forall k :: 0 <= k < |users| && users[k].id != userId ==> r[k] == users[k]
  {
    seq(|users|, k requires 0 <= k < |users| =>
      if users[k].id == userId then users[k].(email := email) else users[k])
  }

  /** The user's row, found by key after the update, carries the new
      email; a key with no row stays without one. */
  lemma {:induction false} WithEmailFindsNewEmail(users: seq<User>, userId: Id, email: string)
    ensures FindUser(users, userId).Some? ==>
      FindUser(WithEmail(users, userId, email), userId) == Some(FindUser(users, userId).value.(email := email))
    ensures FindUser(users, userId).None? ==> FindUser(WithEmail(users, userId, email), userId).None?
  {
    if users != [] {
      assert WithEmail(users, userId, email)[1..] == WithEmail(users[1..], userId, email);
      WithEmailFindsNewEmail(users[1..], userId, email);
    }
  }

  /** A field of the patch: the given value when there is one, else the
      value before. */
  predicate Given<T(==)>(given: Option<T>, now: T, before: T) {
    (given.Some? ==> now == given.value) && (given.None? ==> now == before)
  }

  /** The body names none of the profile columns: Doctor.update then has
      nothing to set and reports no row updated. */
  predicate NoProfileFields(p: Patch) {
    p.firstName.None? && p.middleName.None? && p.lastName.None? && p.contact.None?
    && p.validId.None? && p.fieldId.None?
  }

  function Pick<T>(given: Option<T>, current: T): T {
    if given.Some? then given.value else current
  }

  function Patched(d: Doctor, p: Patch): Doctor {
    d.(firstName := Pick(p.firstName, d.firstName), middleName := Pick(p.middleName, d.middleName),
       lastName := Pick(p.lastName, d.lastName), contact := Pick(p.contact, d.contact),
       validId := Pick(p.validId, d.validId), fieldId := Pick(p.fieldId, d.fieldId))
  }

  /** Doctor.update(patch, { where: { user_id } }): every profile row of the
      user is patched; the others are untouched. */
  function PatchDoctors(doctors: seq<Doctor>, userId: Id, p: Patch): (r: seq<Doctor>)
    ensures |r| == |doctors|
    ensures forall k :: 0 <= k < |doctors| && doctors[k].userId != userId ==> r[k] == doctors[k]
    ensures forall k :: 0 <= k < |doctors| ==>
      r[k].id == doctors[k].id && r[k].userId == doctors[k].userId && r[k].status == doctors[k].status
    ensures forall k :: 0 <= k < |doctors| && doctors[k].userId == userId ==>
      && Given(p.firstName, r[k].firstName, doctors[k].firstName)
      && Given(p.middleName, r[k].middleName, doctors[k].middleName)
      && Given(p.lastName, r[k].lastName, doctors[k].lastName)
      && Given(p.contact, r[k].contact, doctors[k].contact)
      && Given(p.validId, r[k].validId, doctors[k].validId)
      && Given(p.fieldId, r[k].fieldId, doctors[k].fieldId)
  {
    seq(|doctors|, k requires 0 <= k < |doctors| =>
      if doctors[k].userId == userId then Patched(doctors[k], p) else doctors[k])
  }

  /** What one attempt leads to: a reply, or an error for the retry logic. */
  datatype Step = Answered(reply: Reply<Doctor>) | Raised(error: DbError)

  datatype Attempted = Attempted(step: Step, users: seq<User>, doctors: seq<Doctor>)

  /** One pass through the try block: the email update when an email is
      given, then the profile update; 404 when it matched no row or had no
      column to set (Doctor.update drops undefined values and then sends no
      query), else 200 with the first updated row.  An error leaves the
      writes made before it in place. */
  function TryOnce(users: seq<User>, doctors: seq<Doctor>, userId: Id, p: Patch, f: Fault): (r: Attempted)
    ensures r.users == (if p.email != "" && f.atEmail.None? && !EmailClash(users, userId, p.email)
                        then WithEmail(users, userId, p.email) else users)
    ensures r.step.Answered? ==> r.step.reply.status in {200, 404}
    ensures r.step == Raised(UniqueViolation) ==>
      f.atEmail == Some(UniqueViolation) || f.atProfile == Some(UniqueViolation)
      || EmailClash(users, userId, p.email)
    ensures r.step.Answered? && r.step.reply.status == 404 ==>
      NoProfileFields(p) || forall d :: d in doctors ==> d.userId != userId
    ensures r.step.Answered? && r.step.reply.status == 200 ==>
      && !NoProfileFields(p) && f.atProfile.None?
      && r.doctors == PatchDoctors(doctors, userId, p)
      && r.step.reply.body.Some? && r.step.reply.body.value in r.doctors
      && r.step.reply.body.value.userId == userId
    ensures !(r.step.Answered? && r.step.reply.status == 200) ==> r.doctors == doctors
  {
    var emailStep :=
      if p.email == "" then Attempted(Answered(Fail(0, "")), users, doctors)
      else if f.atEmail.Some? then Attempted(Raised(f.atEmail.value), users, doctors)
      else if EmailClash(users, userId, p.email) then Attempted(Raised(UniqueViolation), users, doctors)
      else Attempted(Answered(Fail(0, "")), WithEmail(users, userId, p.email), doctors);
    if emailStep.step.Raised? then emailStep
    else if NoProfileFields(p) then
      Attempted(Answered(Fail(404, "Doctor profile not found.")), emailStep.users, doctors)
    else if f.atProfile.Some? then Attempted(Raised(f.atProfile.value), emailStep.users, doctors)
    else
      var rows := Where(doctors, (d: Doctor) => d.userId == userId);
      if rows == [] then Attempted(Answered(Fail(404, "Doctor profile not found.")), emailStep.users, doctors)
      else
        PatchedStored(doctors, userId, p, rows[0]);
        Attempted(Answered(Reply(200, "Profile updated successfully!", Some(Patched(rows[0], p)))),
                  emailStep.users, PatchDoctors(doctors, userId, p))
  }

  /** A row of the user, patched, is one of the rows the update leaves. */
  lemma PatchedStored(doctors: seq<Doctor>, userId: Id, p: Patch, d: Doctor)
    requires d in doctors && d.userId == userId
    ensures Patched(d, p) in PatchDoctors(doctors, userId, p)
  {
    var k :| 0 <= k < |doctors| && doctors[k] == d;
    assert PatchDoctors(doctors, userId, p)[k] == Patched(d, p);
  }

  /** The reply, the tables afterwards and the number of attempts made. */
  datatype Outcome = Outcome(reply: Reply<Doctor>, users: seq<User>, doctors: seq<Doctor>, attempts: nat)

  /** The loop from attempt `attempt` on: a dropped connection is retried
      while attempts remain; any other error, or the last dropped
      connection, ends it with 409 for the unique email index and 500
      otherwise. */
  function Run(users: seq<User>, doctors: seq<Doctor>, userId: Id, p: Patch,
               faults: seq<Fault>, attempt: nat): (o: Outcome)
    requires attempt < MaxRetries <= |faults|
    ensures attempt < o.attempts <= MaxRetries
    ensures o.reply.status in {200, 404, 409, 500}
    decreases MaxRetries - attempt
  {
    var t := TryOnce(users, doctors, userId, p, faults[attempt]);
    match t.step
    case Answered(reply) => Outcome(reply, t.users, t.doctors, attempt + 1)
    case Raised(e) =>
      if IsReset(e) && attempt + 1 < MaxRetries then
        Run(t.users, t.doctors, userId, p, faults, attempt + 1)
      else if e.name == "SequelizeUniqueConstraintError" then
        Outcome(Fail(409, "Email is already in use."), t.users, t.doctors, attempt + 1)
      else
        Outcome(Fail(500, "Failed to update profile."), t.users, t.doctors, attempt + 1)
  }

  /** An error other than a dropped connection ends the loop at once. */
  lemma NoRetryUnlessReset(users: seq<User>, doctors: seq<Doctor>, userId: Id, p: Patch,
                           faults: seq<Fault>)
    requires MaxRetries <= |faults|
    requires TryOnce(users, doctors, userId, p, faults[0]).step.Raised?
    requires !IsReset(TryOnce(users, doctors, userId, p, faults[0]).step.error)
    ensures Run(users, doctors, userId, p, faults, 0).attempts == 1
    ensures Run(users, doctors, userId, p, faults, 0).reply.status == 409 <==>
      TryOnce(users, doctors, userId, p, faults[0]).step.error.name == "SequelizeUniqueConstraintError"
  {
  }

  /** The message of a unique-index violation holds no "ECONNRESET", so
      it is never taken for a dropped connection. */
  lemma UniqueViolationIsNoReset()
    ensures !IsReset(UniqueViolation)
  {
    var s := UniqueViolation.message;
    forall k | 0 <= k && k + 10 <= |s|
      ensures !OccursAt(s, "ECONNRESET", k)
    {
      assert s[k..k + 10][0] == s[k] != 'E';
    }
  }

  /** An email another user holds gives 409 without a retry and without
      touching either table. */
  lemma TakenEmailGives409(users: seq<User>, doctors: seq<Doctor>, userId: Id, p: Patch,
                           faults: seq<Fault>)
    requires MaxRetries <= |faults|
    requires p.email != "" && faults[0].atEmail.None? && EmailClash(users, userId, p.email)
    ensures Run(users, doctors, userId, p, faults, 0)
         == Outcome(Fail(409, "Email is already in use."), users, doctors, 1)
  {
    UniqueViolationIsNoReset();
  }

  /** A connection dropped on every attempt gives 500 after exactly three
      attempts, whenever the body makes the attempt query the database. */
  lemma ResetEveryTimeGives500(users: seq<User>, doctors: seq<Doctor>, userId: Id, p: Patch,
                               faults: seq<Fault>, e: DbError)
    requires MaxRetries <= |faults|
    requires p.email != "" || !NoProfileFields(p)
    requires IsReset(e) && e.name != "SequelizeUniqueConstraintError"
    requires forall k :: 0 <= k < MaxRetries ==> faults[k] == Fault(Some(e), Some(e))
    ensures Run(users, doctors, userId, p, faults, 0).reply == Fail(500, "Failed to update profile.")
    ensures Run(users, doctors, userId, p, faults, 0).attempts == MaxRetries
  {
  }

  /** A connection dropped before the first write, followed by a clean
      attempt, ends as the clean attempt alone would have: the retry
      recovers. */
  lemma RetryRecovers(users: seq<User>, doctors: seq<Doctor>, userId: Id, p: Patch,
                      faults: seq<Fault>, e: DbError)
    requires MaxRetries <= |faults|
    requires IsReset(e) && p.email != "" && !EmailClash(users, userId, p.email)
    requires faults[0] == Fault(Some(e), None) && faults[1] == Fault(None, None)
    ensures Run(users, doctors, userId, p, faults, 0).attempts == 2
    ensures var clean := TryOnce(users, doctors, userId, p, Fault(None, None));
      && clean.step.Answered?
      && Run(users, doctors, userId, p, faults, 0) == Outcome(clean.step.reply, clean.users, clean.doctors, 2)
  {
  }

  /** The email written before a failing profile update stays written:
      the attempts are not transactions. */
  lemma EmailSurvivesLaterFailure(users: seq<User>, doctors: seq<Doctor>, userId: Id, p: Patch,
                                  faults: seq<Fault>, e: DbError)
    requires MaxRetries <= |faults|
    requires !IsReset(e) && e.name != "SequelizeUniqueConstraintError"
    requires p.email != "" && !EmailClash(users, userId, p.email) && !NoProfileFields(p)
    requires faults[0] == Fault(None, Some(e))
    ensures Run(users, doctors, userId, p, faults, 0)
         == Outcome(Fail(500, "Failed to update profile."), WithEmail(users, userId, p.email), doctors, 1)
  {
  }

  /** A body with an email and no profile column writes the email and
      still answers 404, without a retry. */
  lemma EmptyPatchGives404(users: seq<User>, doctors: seq<Doctor>, userId: Id, p: Patch,
                           faults: seq<Fault>)
    requires MaxRetries <= |faults|
    requires p.email != "" && !EmailClash(users, userId, p.email) && faults[0].atEmail.None?
    requires NoProfileFields(p)
    ensures Run(users, doctors, userId, p, faults, 0)
         == Outcome(Fail(404, "Doctor profile not found."), WithEmail(users, userId, p.email), doctors, 1)
  {
  }

  /** One pass through the try block, as `TryOnce` describes it. */
  method Attempt(db: Database, userId: Id, p: Patch, f: Fault) returns (step: Step)
    requires db.Valid()
    modifies db`users, db`doctors
    ensures db.Valid()
    ensures Attempted(step, db.users, db.doctors) == TryOnce(old(db.users), old(db.doctors), userId, p, f)
  {
    if p.email != "" {
      if f.atEmail.Some? {
        return Raised(f.atEmail.value);
      } else if EmailClash(db.users, userId, p.email) {
        return Raised(UniqueViolation);
      }
      db.UpdateUsers(WithEmail(db.users, userId, p.email));
    }
    if NoProfileFields(p) {
      return Answered(Fail(404, "Doctor profile not found."));
    }
    if f.atProfile.Some? {
      return Raised(f.atProfile.value);
    }
    var rows := Where(db.doctors, (d: Doctor) => d.userId == userId);
    if rows == [] {
      return Answered(Fail(404, "Doctor profile not found."));
    }
    db.UpdateDoctors(PatchDoctors(db.doctors, userId, p));
    return Answered(Reply(200, "Profile updated successfully!", Some(Patched(rows[0], p))));
  }

  /** 401 without a token.  jwt.verify runs outside the try block, so a bad
      token gets no reply at all (status 0).  Otherwise the retry loop:
      the reply, the tables and the attempt count are those of `Run`;
      `faults[i]` says what goes wrong in attempt i. */
  method UpdateDoctorProfile(db: Database, token: Token, p: Patch, faults: seq<Fault>)
    returns (r: Reply<Doctor>, attempts: nat)
    requires db.Valid()
    requires MaxRetries <= |faults|
    modifies db`users, db`doctors
    ensures db.Valid()
    ensures token.NoToken? ==>
      r == Fail(401, "Authorization token missing.") && attempts == 0 && unchanged(db)
    ensures token.BadToken? ==> r == Fail(0, "") && attempts == 0 && unchanged(db)
    ensures token.Verified? ==>
      Outcome(r, db.users, db.doctors, attempts)
        == Run(old(db.users), old(db.doctors), token.claims.userId, p, faults, 0)
  {
    if token.NoToken? {
      return Fail(401, "Authorization token missing."), 0;
    }
    if token.BadToken? {
      return Fail(0, ""), 0;
    }
    var userId := token.claims.userId;
    var attempt := 0;
    while attempt < MaxRetries
      invariant attempt < MaxRetries
      invariant db.Valid()
      invariant Run(db.users, db.doctors, userId, p, faults, attempt)
             == Run(old(db.users), old(db.doctors), userId, p, faults, 0)
      decreases MaxRetries - attempt
    {
      attempts := attempt + 1;
      var step := Attempt(db, userId, p, faults[attempt]);
      if step.Answered? {
        return step.reply, attempts;
      }
      var e := step.error;
      if IsReset(e) {
        attempt := attempt + 1;
        if attempt < MaxRetries {
          continue;
        }
      }
      if e.name == "SequelizeUniqueConstraintError" {
        return Fail(409, "Email is already in use."), attempts;
      }
      return Fail(500, "Failed to update profile."), attempts;
    }
    assert false;
  }
}
