/** Accounts and sessions: registering doctors, clients and admins, login
    and the session token it signs, the tab list a token unlocks, the
    profile lookup by role, one-time passcodes and password changes.
    Hashing is the `Digest` model of the store, the random salt of each
    bcrypt.hash and the draw of Math.random are parameters. */
module Auth {
  import opened Base
  import opened Store
  import opened Seqs
  import opened Text

  // ---------------------------------------------------------------------
  // registerDoctor, registerClient, registerAdmin

  /** The request bodies.  An email or password left out of the body is
      None: findOne then rejects the undefined `email` in its WHERE, and
      bcrypt.hash rejects an undefined password. */
  datatype DoctorForm = DoctorForm(firstName: string, middleName: string, lastName: string,
                                   fieldId: Id, contact: string, validId: string,
                                   email: Option<string>, password: Option<string>)

  datatype ClientForm = ClientForm(firstName: string, middleName: string, lastName: string,
                                   fieldId: Id, contact: string, email: Option<string>,
                                   password: Option<string>)

  datatype AdminForm = AdminForm(firstName: string, middleName: string, lastName: string,
                                 contact: string, email: Option<string>, password: Option<string>)

  /** The User row a registration stores (no profile picture yet). */
  function NewUser(id: Id, email: string, password: string, salt: nat, role: string,
                   status: string): User {
    User(id, email, Bcrypt(password, salt), role, status, "")
  }

  /** Appending a user whose email is new keeps emails unique. */
  lemma FreshEmailKeepsUnique(users: seq<User>, u: User)
    requires UniqueEmails(users)
    requires FindByEmail(users, u.email).None?
    ensures UniqueEmails(users + [u])
  {
    var all := users + [u];
    forall i, j | 0 <= i < j < |all|
      ensures all[i].email != all[j].email
    {
      if j == |users| {
        assert all[i] in users;
      } else {
        assert all[i] == users[i] && all[j] == users[j];
      }
    }
  }

  /** A missing email gives 500 before any lookup; a taken email gives
      400; a missing password (with a free email) gives 500; none of these
      writes anything.  Otherwise one User
      (role "doctor", status "pending", password hashed) and one Doctor
      profile pointing at it (status "enabled") are stored, both or
      neither, as the transaction commits them together. */
  method RegisterDoctor(db: Database, form: DoctorForm, salt: nat) returns (r: Reply<User>)
    requires db.Valid()
    modifies db`users, db`doctors, db`nextId
    ensures db.Valid()
    ensures form.email.None? ==>
      r == Fail(500, "An error occurred while registering the doctor.") && unchanged(db)
    ensures form.email.Some? && FindByEmail(old(db.users), form.email.value).Some? ==>
      r == Fail(400, "User with this email already exists.") && unchanged(db)
    ensures form.email.Some? && FindByEmail(old(db.users), form.email.value).None?
            && form.password.None? ==>
      r == Fail(500, "An error occurred while registering the doctor.") && unchanged(db)
    ensures form.email.Some? && FindByEmail(old(db.users), form.email.value).None?
            && form.password.Some? ==>
      var u := NewUser(old(db.nextId), form.email.value, form.password.value, salt, "doctor", "pending");
      var d := Doctor(old(db.nextId) + 1, u.id, form.firstName, form.middleName, form.lastName,
                      form.fieldId, form.contact, form.validId, "enabled");
      && r == Reply(201, "Doctor registered successfully.", Some(u))
      && db.users == old(db.users) + [u] && db.doctors == old(db.doctors) + [d]
      && db.nextId == old(db.nextId) + 2
    ensures UniqueEmails(old(db.users)) ==> UniqueEmails(db.users)
  {
    if form.email.None? {
      return Fail(500, "An error occurred while registering the doctor.");
    }
    if FindByEmail(db.users, form.email.value).Some? {
      return Fail(400, "User with this email already exists.");
    }
    if form.password.None? {
      return Fail(500, "An error occurred while registering the doctor.");
    }
    var user := db.CreateUser(NewUser(0, form.email.value, form.password.value, salt, "doctor", "pending"));
    if UniqueEmails(old(db.users)) {
      FreshEmailKeepsUnique(old(db.users), user);
    }
    var _ := db.CreateDoctor(Doctor(0, user.id, form.firstName, form.middleName, form.lastName,
                                    form.fieldId, form.contact, form.validId, "enabled"));
    return Reply(201, "Doctor registered successfully.", Some(user));
  }

  /** As for doctors, with role "client" and a Client profile. */
  method RegisterClient(db: Database, form: ClientForm, salt: nat) returns (r: Reply<User>)
    requires db.Valid()
    modifies db`users, db`clients, db`nextId
    ensures db.Valid()
    ensures form.email.None? ==>
      r == Fail(500, "An error occurred while registering the client.") && unchanged(db)
    ensures form.email.Some? && FindByEmail(old(db.users), form.email.value).Some? ==>
      r == Fail(400, "User with this email already exists.") && unchanged(db)
    ensures form.email.Some? && FindByEmail(old(db.users), form.email.value).None?
            && form.password.None? ==>
      r == Fail(500, "An error occurred while registering the client.") && unchanged(db)
    ensures form.email.Some? && FindByEmail(old(db.users), form.email.value).None?
            && form.password.Some? ==>
      var u := NewUser(old(db.nextId), form.email.value, form.password.value, salt, "client", "pending");
      var c := Client(old(db.nextId) + 1, u.id, form.firstName, form.middleName, form.lastName,
                      form.fieldId, form.contact, "enabled");
      && r == Reply(201, "Client registered successfully.", Some(u))
      && db.users == old(db.users) + [u] && db.clients == old(db.clients) + [c]
      && db.nextId == old(db.nextId) + 2
    ensures UniqueEmails(old(db.users)) ==> UniqueEmails(db.users)
  {
    if form.email.None? {
      return Fail(500, "An error occurred while registering the client.");
    }
    if FindByEmail(db.users, form.email.value).Some? {
      return Fail(400, "User with this email already exists.");
    }
    if form.password.None? {
      return Fail(500, "An error occurred while registering the client.");
    }
    var user := db.CreateUser(NewUser(0, form.email.value, form.password.value, salt, "client", "pending"));
    if UniqueEmails(old(db.users)) {
      FreshEmailKeepsUnique(old(db.users), user);
    }
    var _ := db.CreateClient(Client(0, user.id, form.firstName, form.middleName, form.lastName,
                                    form.fieldId, form.contact, "enabled"));
    return Reply(201, "Client registered successfully.", Some(user));
  }

  /** The secret is checked first: a `secret` different from the
      configured `adminSecret` gives 401 before any lookup.  Absent values
      are `None`, and `undefined !== undefined` is false, so with no secret
      configured a request without one passes.  Then as for doctors, with
      role "admin", status "enabled" and an Admin profile. */
  method RegisterAdmin(db: Database, form: AdminForm, secret: Option<string>,
                       adminSecret: Option<string>, salt: nat) returns (r: Reply<User>)
    requires db.Valid()
    modifies db`users, db`admins, db`nextId
    ensures db.Valid()
    ensures secret != adminSecret ==>
      r == Fail(401, "Invalid admin secret key. Registration denied.") && unchanged(db)
    ensures secret == adminSecret && form.email.None? ==>
      r == Fail(500, "An error occurred while registering the admin.") && unchanged(db)
    ensures secret == adminSecret && form.email.Some? && FindByEmail(old(db.users), form.email.value).Some? ==>
      r == Fail(400, "User with this email already exists.") && unchanged(db)
    ensures secret == adminSecret && form.email.Some? && FindByEmail(old(db.users), form.email.value).None?
            && form.password.None? ==>
      r == Fail(500, "An error occurred while registering the admin.") && unchanged(db)
    ensures secret == adminSecret && form.email.Some? && FindByEmail(old(db.users), form.email.value).None?
            && form.password.Some? ==>
      var u := NewUser(old(db.nextId), form.email.value, form.password.value, salt, "admin", "enabled");
      var a := Admin(old(db.nextId) + 1, u.id, form.firstName, form.middleName, form.lastName,
                     form.contact, "enabled");
      && r == Reply(201, "Admin registered successfully.", Some(u))
      && db.users == old(db.users) + [u] && db.admins == old(db.admins) + [a]
      && db.nextId == old(db.nextId) + 2
    ensures UniqueEmails(old(db.users)) ==> UniqueEmails(db.users)
  {
    if secret != adminSecret {
      return Fail(401, "Invalid admin secret key. Registration denied.");
    }
    if form.email.None? {
      return Fail(500, "An error occurred while registering the admin.");
    }
    if FindByEmail(db.users, form.email.value).Some? {
      return Fail(400, "User with this email already exists.");
    }
    if form.password.None? {
      return Fail(500, "An error occurred while registering the admin.");
    }
    var user := db.CreateUser(NewUser(0, form.email.value, form.password.value, salt, "admin", "enabled"));
    if UniqueEmails(old(db.users)) {
      FreshEmailKeepsUnique(old(db.users), user);
    }
    var _ := db.CreateAdmin(Admin(0, user.id, form.firstName, form.middleName, form.lastName,
                                  form.contact, "enabled"));
    return Reply(201, "Admin registered successfully.", Some(user));
  }

  // ---------------------------------------------------------------------
  // login

  /** The signed session token: its payload and its lifetime. */
  datatype Session = Session(claims: Claims, expiresIn: string)

  /** A body without an email makes the lookup throw, and one without a
      password makes bcrypt.compare reject: both end in the catch (500).
      An unknown email and a wrong password get the same 401.  Otherwise
      the token carries the user's key and a fresh digest of the role (drawn
      with `salt`) and lives 15 hours. */
  function Login(users: seq<User>, email: Option<string>, password: Option<string>, salt: nat)
    : (r: Reply<Session>)
    ensures email.None? ==> r == Fail(500, "An error occurred during login.")
    ensures email.Some? && FindByEmail(users, email.value).None? ==>
      r == Fail(401, "Invalid email or password")
    ensures email.Some? && FindByEmail(users, email.value).Some? && password.None? ==>
      r == Fail(500, "An error occurred during login.")
    ensures email.Some? && FindByEmail(users, email.value).Some? && password.Some?
            && !Matches(password.value, FindByEmail(users, email.value).value.password)
            ==> r == Fail(401, "Invalid email or password")
    ensures email.Some? && FindByEmail(users, email.value).Some? && password.Some?
            && Matches(password.value, FindByEmail(users, email.value).value.password)
            ==> var u := FindByEmail(users, email.value).value;
                r == Reply(200, "SUCCESS", Some(Session(Claims(u.id, HashedRole(Bcrypt(u.role, salt))), "15h")))
    ensures r.status == 200 || r == Fail(401, "Invalid email or password")
            || r == Fail(500, "An error occurred during login.")
    ensures r.status == 200 ==>
      email.Some? && password.Some? &&
      exists u :: u in users && u.email == email.value && Matches(password.value, u.password)
        && r.body == Some(Session(Claims(u.id, HashedRole(Bcrypt(u.role, salt))), "15h"))
  {
    if email.None? then Fail(500, "An error occurred during login.")
    else
      match FindByEmail(users, email.value)
      case None => Fail(401, "Invalid email or password")
      case Some(u) =>
        if password.None? then Fail(500, "An error occurred during login.")
        else if !Matches(password.value, u.password) then Fail(401, "Invalid email or password")
        else Reply(200, "SUCCESS", Some(Session(Claims(u.id, HashedRole(Bcrypt(u.role, salt))), "15h")))
  }

  /** The first user with an email nobody had is the one just appended. */
  lemma {:induction false} FindByEmailAppend(users: seq<User>, u: User)
    requires FindByEmail(users, u.email).None?
    ensures FindByEmail(users + [u], u.email) == Some(u)
  {
    if users != [] {
      assert (users + [u])[1..] == users[1..] + [u];
      FindByEmailAppend(users[1..], u);
    }
  }

  /** A user who has just registered can log in with the email and the
      password they registered with, and the token names them and their
      role. */
  lemma LoginAfterRegister(users: seq<User>, u: User, password: string, salt: nat)
    requires FindByEmail(users, u.email).None?
    requires Matches(password, u.password)
    ensures Login(users + [u], Some(u.email), Some(password), salt)
         == Reply(200, "SUCCESS", Some(Session(Claims(u.id, HashedRole(Bcrypt(u.role, salt))), "15h")))
  {
    FindByEmailAppend(users, u);
  }

  // ---------------------------------------------------------------------
  // verifyToken

  const ClientTabs: seq<string> := ["home", "events", "articles", "consultation", "profile"]
  const DoctorTabs: seq<string> :=
    ["home", "events", "articles", "availability", "consultation", "profile"]
  const AdminTabs: seq<string> :=
    ["home", "events", "articles", "messages", "doctors", "clients", "profile"]

  /** The tabs a token unlocks and the placeholder label sent as `role`;
      both are absent when no role matches. */
  datatype Grant = Grant(tabs: Option<seq<string>>, roleLabel: Option<string>)

  /** The role -> tab list table, for a plain role name. */
  function GrantFor(role: string): Grant {
    if role == "client" then Grant(Some(ClientTabs), Some("grace"))
    else if role == "doctor" then Grant(Some(DoctorTabs), Some("janna"))
    else if role == "admin" then Grant(Some(AdminTabs), Some("gwyneth"))
    else Grant(None, None)
  }

  /** 401 with no token or one that fails verification.  Otherwise the
      role claim is compared with "client", "doctor" and "admin" in turn,
      each match overriding the one before. */
  function VerifyToken(token: Token): (r: Reply<Grant>)
    ensures token.NoToken? ==> r == Fail(401, "Authorization token missing or malformed.")
    ensures token.BadToken? ==> r == Fail(401, "Token is invalid or expired.")
    ensures token.Verified? ==>
      var c := token.claims.role;
      && r.status == 200 && r.message == "Token is valid." && r.body.Some?
      && (RoleIs("admin", c) ==> r.body.value == GrantFor("admin"))
      && (RoleIs("doctor", c) && !RoleIs("admin", c) ==> r.body.value == GrantFor("doctor"))
      && (RoleIs("client", c) && !RoleIs("doctor", c) && !RoleIs("admin", c) ==>
            r.body.value == GrantFor("client"))
      && (!RoleIs("client", c) && !RoleIs("doctor", c) && !RoleIs("admin", c) ==>
            r.body.value == Grant(None, None))
  {
    match token
    case NoToken => Fail(401, "Authorization token missing or malformed.")
    case BadToken => Fail(401, "Token is invalid or expired.")
    case Verified(claims) =>
      var none := Grant(None, None);
      var afterClient := if RoleIs("client", claims.role) then Grant(Some(ClientTabs), Some("grace")) else none;
      var afterDoctor := if RoleIs("doctor", claims.role) then Grant(Some(DoctorTabs), Some("janna")) else afterClient;
      var afterAdmin := if RoleIs("admin", claims.role) then Grant(Some(AdminTabs), Some("gwyneth")) else afterDoctor;
      Reply(200, "Token is valid.", Some(afterAdmin))
  }

  /** A role claim matches at most one role name, so the overriding never
      comes into play: the grant is the table entry for the digested role. */
  lemma {:induction false} HashedRoleSelectsItsRow(role: string, salt: nat, userId: Id)
    ensures VerifyToken(Verified(Claims(userId, HashedRole(Bcrypt(role, salt))))).body
         == Some(GrantFor(role))
  {
    var c := HashedRole(Bcrypt(role, salt));
    assert RoleIs(role, c);
  }

  /** Logging in and presenting the token unlocks the tabs of the user's
      role. */
  lemma LoginThenVerify(users: seq<User>, email: Option<string>, password: Option<string>, salt: nat)
    requires Login(users, email, password, salt).status == 200
    ensures var s := Login(users, email, password, salt).body.value;
      VerifyToken(Verified(s.claims)).body == Some(GrantFor(FindByEmail(users, email.value).value.role))
  {
    var u := FindByEmail(users, email.value).value;
    HashedRoleSelectsItsRow(u.role, salt, u.id);
  }

  // ---------------------------------------------------------------------
  // getProfile

  datatype Profile = DoctorProfile(doctor: Doctor) | ClientProfile(client: Client)
                   | AdminProfile(admin: Admin)

  datatype ProfileView = ProfileView(role: string, profile: Profile, email: string, picture: string)

  /** Which profile table the role claim selects: Doctor for a doctor
      digest, else Client for a client digest, else Admin. */
  function ProfileOf(doctors: seq<Doctor>, clients: seq<Client>, admins: seq<Admin>,
                     role: RoleClaim, userId: Id): Option<Profile> {
    if RoleIs("doctor", role) then
      match DoctorOfUser(doctors, userId)
      case Some(d) => Some(DoctorProfile(d))
      case None => None
    else if RoleIs("client", role) then
      match ClientOfUser(clients, userId)
      case Some(c) => Some(ClientProfile(c))
      case None => None
    else
      match AdminOfUser(admins, userId)
      case Some(a) => Some(AdminProfile(a))
      case None => None
  }

  /** 401 without a token, 500 when it fails verification, 404 for an
      unknown user or a missing profile; otherwise the profile of the
      user's kind together with the user's role, email and picture. */
  function GetProfile(users: seq<User>, doctors: seq<Doctor>, clients: seq<Client>,
                      admins: seq<Admin>, token: Token): (r: Reply<ProfileView>)
    ensures token.NoToken? ==> r == Fail(401, "Authorization token missing.")
    ensures token.BadToken? ==> r == Fail(500, "An error occurred while fetching profile.")
    ensures token.Verified? && FindUser(users, token.claims.userId).None? ==>
      r == Fail(404, "User not found.")
    ensures token.Verified? && FindUser(users, token.claims.userId).Some? ==>
      var u := FindUser(users, token.claims.userId).value;
      var c := token.claims.role;
      && (r.status == 200 || r == Fail(404, "Profile not found."))
      && (RoleIs("doctor", c) ==>
            (r.status == 200 <==> exists d :: d in doctors && d.userId == u.id))
      && (!RoleIs("doctor", c) && RoleIs("client", c) ==>
            (r.status == 200 <==> exists x :: x in clients && x.userId == u.id))
      && (!RoleIs("doctor", c) && !RoleIs("client", c) ==>
            (r.status == 200 <==> exists a :: a in admins && a.userId == u.id))
      && (r.status == 200 ==>
            && r.body.Some? && r.body.value.role == u.role && r.body.value.email == u.email
            && r.body.value.picture == u.picture
            && match r.body.value.profile
               case DoctorProfile(d) => RoleIs("doctor", c) && d in doctors && d.userId == u.id
               case ClientProfile(x) => !RoleIs("doctor", c) && RoleIs("client", c)
                                        && x in clients && x.userId == u.id
               case AdminProfile(a) => !RoleIs("doctor", c) && !RoleIs("client", c)
                                       && a in admins && a.userId == u.id)
  {
    match token
    case NoToken => Fail(401, "Authorization token missing.")
    case BadToken => Fail(500, "An error occurred while fetching profile.")
    case Verified(claims) =>
      match FindUser(users, claims.userId)
      case None => Fail(404, "User not found.")
      case Some(u) =>
        match ProfileOf(doctors, clients, admins, claims.role, u.id)
        case None => Fail(404, "Profile not found.")
        case Some(p) =>
          Reply(200, "Profile retrieved successfully", Some(ProfileView(u.role, p, u.email, u.picture)))
  }

  // ---------------------------------------------------------------------
  // sendOtp, verifyOtp

  /** Math.floor(100000 + Math.random() * 900000).toString(), where
      `draw` = Math.floor(Math.random() * 900000). */
  function OtpCode(draw: nat): (code: string)
    requires draw < 900000
    ensures |code| == 6
    ensures forall i :: 0 <= i < |code| ==> '0' <= code[i] <= '9'
    ensures code[0] != '0'
    ensures DecimalValue(code) == 100000 + draw
    ensures 100000 <= DecimalValue(code) <= 999999
  {
    DecimalLength(100000 + draw, 5);
    DecimalRoundTrip(100000 + draw);
    Decimal(100000 + draw)
  }

  /** Different draws give different codes. */
  lemma OtpCodeInjective(d1: nat, d2: nat)
    requires d1 < 900000 && d2 < 900000 && d1 != d2
    ensures OtpCode(d1) != OtpCode(d2)
  {
  }

  /** 401 without a token, 500 when it fails verification, 404 for an
      unknown user.  Otherwise a new six-digit code is stored as "unused"
      for the user; earlier codes stay as they are. */
  method SendOtp(db: Database, token: Token, draw: nat) returns (r: Reply<string>)
    requires db.Valid()
    requires draw < 900000
    modifies db`otps, db`nextId
    ensures db.Valid()
    ensures token.NoToken? ==> r == Fail(401, "Token missing") && unchanged(db)
    ensures token.BadToken? ==> r == Fail(500, "Failed to send OTP") && unchanged(db)
    ensures token.Verified? && FindUser(db.users, token.claims.userId).None? ==>
      r == Fail(404, "User not found") && unchanged(db)
    ensures token.Verified? && FindUser(db.users, token.claims.userId).Some? ==>
      var code := OtpCode(draw);
      && r == Reply(200, "OTP sent successfully", Some(code))
      && db.otps == old(db.otps) + [Otp(old(db.nextId), token.claims.userId, code, "unused")]
      && db.nextId == old(db.nextId) + 1
  {
    if token.NoToken? {
      return Fail(401, "Token missing");
    }
    if token.BadToken? {
      return Fail(500, "Failed to send OTP");
    }
    var user := FindUser(db.users, token.claims.userId);
    if user.None? {
      return Fail(404, "User not found");
    }
    var code := OtpCode(draw);
    var _ := db.CreateOtp(Otp(0, user.value.id, code, "unused"));
    return Reply(200, "OTP sent successfully", Some(code));
  }

  /** An unused code of `user` equal to `code`. */
  predicate OtpMatches(o: Otp, user: Id, code: string) {
    o.userId == user && o.code == code && o.status == "unused"
  }

  /** OTP.findOne(... order createdAt DESC): the index of the newest
      matching row, i.e. the last in table order. */
  function NewestOtp(otps: seq<Otp>, user: Id, code: string): (r: Option<nat>)
    ensures r.Some? ==> r.value < |otps| && OtpMatches(otps[r.value], user, code)
    ensures r.Some? ==> forall j :: r.value < j < |otps| ==> !OtpMatches(otps[j], user, code)
    ensures r.None? ==> forall o :: o in otps ==> !OtpMatches(o, user, code)
    decreases |otps|
  {
    if otps == [] then None
    else if OtpMatches(otps[|otps| - 1], user, code) then Some(|otps| - 1)
    else
      var rest := otps[..|otps| - 1];
      assert otps == rest + [otps[|otps| - 1]];
      NewestOtp(rest, user, code)
  }

  /** The number of unused rows matching `user` and `code`. */
  function Redeemable(otps: seq<Otp>, user: Id, code: string): nat {
    Count(otps, (o: Otp) => OtpMatches(o, user, code))
  }

  lemma {:induction false} CountAppend<T(!new)>(s: seq<T>, t: seq<T>, p: T -> bool)
    ensures Count(s + t, p) == Count(s, p) + Count(t, p)
  {
    WhereAppend(s, t, p);
  }

  /** Deleting a matching row leaves one fewer code to redeem. */
  lemma RemovingMatchConsumesOne(otps: seq<Otp>, k: nat, user: Id, code: string)
    requires k < |otps| && OtpMatches(otps[k], user, code)
    ensures Redeemable(RemoveAt(otps, k), user, code) == Redeemable(otps, user, code) - 1
  {
    var p := (o: Otp) => OtpMatches(o, user, code);
    assert otps == otps[..k] + [otps[k]] + otps[k + 1..];
    CountAppend(otps[..k] + [otps[k]], otps[k + 1..], p);
    CountAppend(otps[..k], [otps[k]], p);
    CountAppend(otps[..k], otps[k + 1..], p);
    assert Count([otps[k]], p) == 1 by {
      assert [otps[k]][1..] == [];
    }
  }

  /** 401 without a token, 500 when it fails verification or the body has
      no code (the undefined value makes the lookup throw).  The newest
      unused row of the caller with that code is deleted (200); with none,
      400 and nothing changes. */
  method VerifyOtp(db: Database, token: Token, code: Option<string>) returns (r: Reply<string>)
    requires db.Valid()
    modifies db`otps
    ensures db.Valid()
    ensures token.NoToken? ==> r == Fail(401, "Token missing") && unchanged(db)
    ensures token.BadToken? ==> r == Fail(500, "Failed to verify OTP") && unchanged(db)
    ensures token.Verified? && code.None? ==> r == Fail(500, "Failed to verify OTP") && unchanged(db)
    ensures token.Verified? && code.Some? && NewestOtp(old(db.otps), token.claims.userId, code.value).None? ==>
      r == Fail(400, "Invalid OTP") && unchanged(db)
    ensures token.Verified? && code.Some? && NewestOtp(old(db.otps), token.claims.userId, code.value).Some? ==>
      var k := NewestOtp(old(db.otps), token.claims.userId, code.value).value;
      && r == Reply(200, "OTP verified successfully", None)
      && db.otps == RemoveAt(old(db.otps), k)
      && Redeemable(db.otps, token.claims.userId, code.value)
         == Redeemable(old(db.otps), token.claims.userId, code.value) - 1
  {
    if token.NoToken? {
      return Fail(401, "Token missing");
    }
    if token.BadToken? {
      return Fail(500, "Failed to verify OTP");
    }
    if code.None? {
      return Fail(500, "Failed to verify OTP");
    }
    var found := NewestOtp(db.otps, token.claims.userId, code.value);
    if found.None? {
      return Fail(400, "Invalid OTP");
    }
    RemovingMatchConsumesOne(db.otps, found.value, token.claims.userId, code.value);
    db.DestroyOtp(found.value);
    return Reply(200, "OTP verified successfully", None);
  }

  /** A code just sent is the newest one the user can redeem. */
  lemma SentCodeIsNewest(otps: seq<Otp>, o: Otp)
    requires o.status == "unused"
    ensures NewestOtp(otps + [o], o.userId, o.code) == Some(|otps|)
  {
  }

  /** Sending a new code does not retire an older one: whatever could be
      redeemed before still can. */
  lemma OlderCodesStayValid(otps: seq<Otp>, o: Otp, user: Id, code: string)
    requires NewestOtp(otps, user, code).Some?
    ensures NewestOtp(otps + [o], user, code).Some?
  {
    var k := NewestOtp(otps, user, code).value;
    assert (otps + [o])[k] == otps[k];
  }

  // ---------------------------------------------------------------------
  // changePassword

  /** User.update({ password }, { where: { user_id } }): every row with
      that key gets the new digest; nothing else changes. */
  function WithPassword(users: seq<User>, id: Id, d: Digest): (r: seq<User>)
    ensures |r| == |users|
    ensures forall k :: 0 <= k < |users| ==>
      && r[k].id == users[k].id && r[k].email == users[k].email && r[k].role == users[k].role
      && r[k].status == users[k].status && r[k].picture == users[k].picture
    ensures forall k :: 0 <= k < |users| && users[k].id == id ==> r[k].password == d
    ensures forall k :: 0 <= k < |users| && users[k].id != id ==> r[k] == users[k]
  {
    seq(|users|, k requires 0 <= k < |users| =>
      if users[k].id == id then users[k].(password := d) else users[k])
  }

  /** 401 without a token, 500 when it fails verification or the body has
      no new password (bcrypt.hash rejects it, before any write), else 200
      whether or not a row had the token's key. */
  method ChangePassword(db: Database, token: Token, newPassword: Option<string>, salt: nat)
    returns (r: Reply<string>)
    requires db.Valid()
    modifies db`users
    ensures db.Valid()
    ensures token.NoToken? ==> r == Fail(401, "Token missing") && unchanged(db)
    ensures token.BadToken? ==> r == Fail(500, "Failed to change password") && unchanged(db)
    ensures token.Verified? && newPassword.None? ==>
      r == Fail(500, "Failed to change password") && unchanged(db)
    ensures token.Verified? && newPassword.Some? ==>
      && r == Reply(200, "Password changed successfully", None)
      && db.users == WithPassword(old(db.users), token.claims.userId, Bcrypt(newPassword.value, salt))
  {
    if token.NoToken? {
      return Fail(401, "Token missing");
    }
    if token.BadToken? {
      return Fail(500, "Failed to change password");
    }
    if newPassword.None? {
      return Fail(500, "Failed to change password");
    }
    db.UpdateUsers(WithPassword(db.users, token.claims.userId, Bcrypt(newPassword.value, salt)));
    return Reply(200, "Password changed successfully", None);
  }

  /** The password update touches no email, so the email lookup finds the
      same row, with its new digest when it is the updated user. */
  lemma {:induction false} FindByEmailAfterUpdate(users: seq<User>, id: Id, d: Digest, email: string)
    ensures FindByEmail(WithPassword(users, id, d), email)
         == match FindByEmail(users, email)
            case None => None
            case Some(u) => Some(if u.id == id then u.(password := d) else u)
  {
    if users != [] {
      assert WithPassword(users, id, d)[1..] == WithPassword(users[1..], id, d);
      FindByEmailAfterUpdate(users[1..], id, d, email);
    }
  }

  /** After a password change the new password logs in and an old,
      different one no longer does. */
  lemma LoginAfterPasswordChange(users: seq<User>, email: string, id: Id, newPassword: string,
                                 oldPassword: string, salt: nat, loginSalt: nat)
    requires FindByEmail(users, email).Some? && FindByEmail(users, email).value.id == id
    requires oldPassword != newPassword
    ensures Login(WithPassword(users, id, Bcrypt(newPassword, salt)), Some(email), Some(newPassword), loginSalt).status == 200
    ensures Login(WithPassword(users, id, Bcrypt(newPassword, salt)), Some(email), Some(oldPassword), loginSalt).status == 401
  {
    FindByEmailAfterUpdate(users, id, Bcrypt(newPassword, salt), email);
  }
}
