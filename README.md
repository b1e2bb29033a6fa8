# Clinic backend handlers in Dafny

This project models the request handlers of a clinic web backend: an Express
server on top of a Sequelize database. Each handler checks a request, reads and
writes a few tables, and answers with a status code and a payload. The model
keeps each handler's decisions and writes, and replaces the database with an
in-memory store.

The store is the class `Store.Database`. It holds one sequence per table: users
and their doctor, client and admin profiles, fields, OTPs, articles, likes,
comments, notifications, messages, appointments, availability slots, events and
event interests. A single counter `nextId` hands out fresh keys.

Handlers that write to the store are methods of the form
`method H(db: Database, ...) returns (r: Reply<T>)`. Each one says what it
writes, and keeps `Valid()`:

- every key is below `nextId`;
- users are kept in key order;
- there is at most one like per (user, article) pair.

Handlers that only read are functions of the table contents. Properties that
involve more than one call are lemmas:

- liking twice restores the Like table;
- the code login signs unlocks the user's tabs;
- verifying an OTP uses up exactly one matching code.

A few conventions:

- **Tokens.** A token is `NoToken`, `BadToken` (fails `jwt.verify`), or
  `Verified(claims)`. Login puts a bcrypt digest of the role in the role claim,
  modelled as `HashedRole(Bcrypt(role, salt))`. `bcrypt.compare` is `Matches`.
- **Absent fields.** A missing or empty string is `""`. A missing key in a JSON
  body is `0`: keys start at 1, and a numeric 0 is falsy there. A key read
  from the query string is a string, so "0" counts as present there:
  getAvailabilitiesByDoctor takes its doctor as `Option<Id>`, and `None` means
  missing or empty. A missing date is `None`. Some body fields are
  `Option<string>`, with `None` when missing, because an undefined value
  there makes the handler fail with 500 rather than act as falsy. These are
  the registration email and password, the login email and password, the OTP
  code and the new password.
- **Errors.** A reply is `Reply(status, message, body)`; `Fail(status, message)`
  has no body. Status 0 means the handler never answers: an exception thrown
  outside its `try`.

The modules follow the controllers:

| module | handlers |
|---|---|
| `Auth` | registration, login, token check, profile lookup, OTPs, password change |
| `Articles` | articles, likes and comments |
| `Appointments` | bookings |
| `Doctors` | availability, doctor directory, doctor profile and its retry loop |
| `Events` | events |
| `Messages` | messages |
| `Dashboard` | counters |

`Store`, `Notify`, `Seqs`, `Ordering`, `Text` and `Monthly` hold the tables and
the shared query building blocks:

- WHERE filters and COUNT;
- ORDER BY as a sort on a total preorder;
- the notification fan-out;
- the month-by-month grouping.

Two behaviours of the code are worth knowing:

- **OTPs.** The code never retires an older OTP: sending a new code leaves
  every earlier one redeemable. `Auth.OlderCodesStayValid` states it.
- **Bookings.** Neither `createAvailability` nor `createAppointment` checks for
  overlapping slots or existing bookings, and the model does not either.

## Model

| member | source | states |
|---|---|---|
| Auth.RegisterDoctor | controllers/auth.controllers.js:12-83 | A missing email gives 500 before the lookup. A taken email gives 400 "User with this email already exists.". A missing password with a free email gives 500 when hashing. None of these writes anything. Otherwise it stores one User (role "doctor", status "pending", bcrypt digest of the password) and one Doctor profile whose user key is the new user's key, and answers 201. Unique emails stay unique. |
| Auth.RegisterClient | controllers/auth.controllers.js:85-155 | The same 500, 400 and 500 paths, then a User with role "client", status "pending", and a Client profile. |
| Auth.RegisterAdmin | controllers/auth.controllers.js:267-339 | A wrong secret key gives 401 before any lookup or write. Then a missing email gives 500, a taken email 400 and a missing password 500, each writing nothing. Otherwise it stores a User with role "admin", status "enabled", and an Admin profile, and answers 201. |
| Auth.FreshEmailKeepsUnique | controllers/auth.controllers.js:27-37 | Appending a user whose email is not taken keeps emails unique, which is what the duplicate check protects. |
| Auth.Login | controllers/auth.controllers.js:157-194 | A body without an email, or a known email without a password, gets 500 "An error occurred during login.". An unknown email and a wrong password get the same 401 "Invalid email or password". The user FindByEmail returns, with a matching password, gets 200 "SUCCESS" with claims (that user's key, bcrypt digest of their role) that expire in "15h". Every 200 is for a user with that email and password. |
| Auth.LoginAfterRegister | controllers/auth.controllers.js:40-66 | A just-registered user logs in with the password they gave. |
| Auth.VerifyToken | controllers/auth.controllers.js:196-265 | No token gives 401 "Authorization token missing or malformed.". A bad token gives 401 "Token is invalid or expired.". Otherwise 200 with the tab list and label of the last role (client, then doctor, then admin) whose name matches the digest; with no match, neither is set. |
| Auth.HashedRoleSelectsItsRow | controllers/auth.controllers.js:241-252 | A digest of role x selects exactly x's row of the tab table: the later checks never override an earlier match. |
| Auth.LoginThenVerify | controllers/auth.controllers.js:172-181 | The token login signs for a user unlocks that user's role's tab list. |
| Auth.GetProfile | controllers/auth.controllers.js:341-386 | 401 without a token, 500 for a bad token, 404 "User not found." for an unknown user. Otherwise it reads the Doctor profile for a doctor digest, the Client profile for a client digest, and the Admin profile otherwise. 404 "Profile not found." when that row is missing, else 200. |
| Auth.OtpCode | controllers/auth.controllers.js:398 | The code for a draw below 900000 is six decimal digits with no leading zero, and reads back as the number 100000 + draw, so it lies in 100000..999999. |
| Auth.OtpCodeInjective | controllers/auth.controllers.js:398 | Different draws give different codes. |
| Auth.SendOtp | controllers/auth.controllers.js:388-415 | 401 / 500 / 404 for a missing token, a bad token and an unknown user, with nothing stored. Otherwise it appends one unused OTP row for the caller with the drawn code and answers 200 "OTP sent successfully". |
| Auth.NewestOtp | controllers/auth.controllers.js:425-429 | Finds the newest unused row of the caller with that code. None means no row matches. |
| Auth.VerifyOtp | controllers/auth.controllers.js:417-440 | 401 / 500 for a missing or bad token. 500 "Failed to verify OTP" with nothing changed when the body has no code. 400 "Invalid OTP" with nothing removed when no unused code of the caller matches. Otherwise it deletes exactly the newest matching row, leaving one fewer redeemable code, and answers 200. |
| Auth.RemovingMatchConsumesOne | controllers/auth.controllers.js:434 | Deleting a matching row lowers the redeemable count by exactly one. |
| Auth.SentCodeIsNewest | controllers/auth.controllers.js:401-404 | A code just sent is the one verifyOtp would consume. |
| Auth.OlderCodesStayValid | controllers/auth.controllers.js:398-404 | Sending a new code leaves every earlier matching code redeemable. |
| Auth.ChangePassword | controllers/auth.controllers.js:442-461 | 401 / 500 for a missing or bad token, and 500 "Failed to change password" when the body has no new password, each with nothing changed. Otherwise the caller's password becomes the digest of the new one and answers 200. |
| Auth.WithPassword | controllers/auth.controllers.js:451-454 | Every row with the caller's key gets the new digest, and every other row is unchanged. Every row keeps its key, email, role, status and picture. |
| Auth.LoginAfterPasswordChange | controllers/auth.controllers.js:442-461 | After a change the new password logs in and the old one, if different, gets 401. |
| Articles.CreateArticle | controllers/article.controllers.js:313-360 | No token gives 400 "Token is required" and a bad token gives 500, writing nothing. Otherwise it stores the article under the caller, then one "new_article" notice per other user, in table order, each pointing at the article, and answers 201. |
| Articles.ArticleNoticesReachOthersOnce | controllers/article.controllers.js:335-347 | The author gets no notice. Every other user gets exactly one. No one outside the Users table gets one. |
| Articles.FindLike | controllers/article.controllers.js:428 | Finds the first like of that user on that article. None means there is no such like. |
| Articles.UnlikeFlips | controllers/article.controllers.js:437-442 | Destroying the user's like leaves the user not liking the article, keeps one like per pair, and changes no other pair. |
| Articles.LikeFlips | controllers/article.controllers.js:443-446 | Creating the like when there was none makes the user like the article, keeps one like per pair, and changes no other pair. |
| Articles.AddLike | controllers/article.controllers.js:443-465 | The like is stored first. A missing author then gives 500 "Server error" and no notice. The author liking their own article gives 200 and no notice. Anyone else's like gives 200 and one "like" notice to the author. |
| Articles.ToggledFlips | controllers/article.controllers.js:437-446 | A toggle flips whether the user likes the article, keeps one like per pair, and changes no other pair. |
| Articles.ToggleTwiceRestores | controllers/article.controllers.js:437-460 | Two toggles restore who likes what. When the first toggle adds a like, the table itself is restored. |
| Articles.ToggleLike | controllers/article.controllers.js:407-468 | A missing token or article gives 400, a missing user key gives 400 and an unknown article gives 404, changing nothing. Otherwise it unlikes (liked=false, no notice) or likes (liked=true), and notifies the author only when the liker is someone else. |
| Articles.ToggleLikeTwice | controllers/article.controllers.js:437-460 | Two calls leave who likes what unchanged. |
| Articles.CreateComment | controllers/article.controllers.js:550-599 | A missing or bad token ends in 500, since verification happens first. A missing article key or content gives 400 and an unknown article gives 404, creating nothing. Otherwise it stores one comment and notifies the author unless the commenter is the author. |
| Articles.FindComment | controllers/article.controllers.js:606 | Finds the comment with that key. None means there is none. |
| Articles.DeleteComment | controllers/article.controllers.js:602-617 | An unknown key gives 404 with nothing changed. Otherwise it removes exactly that comment, as a multiset difference of one row, and answers 200. |
| Articles.Listing | controllers/article.controllers.js:396 | Rows are listed newest first: entry k is row n-1-k. |
| Articles.ListingShowsAll | controllers/article.controllers.js:363-399 | A listing shows each selected row exactly once. |
| Articles.GetAllArticlesWithCounts | controllers/article.controllers.js:363-404 | Shows exactly the articles whose title or content contains the lower-cased query, each with its comment and like counts. |
| Articles.GetAllArticlesWithCountsByUser | controllers/article.controllers.js:470-547 | 400 without a token or without a user key, 500 for a bad token. Otherwise it shows the articles matching title, content or excerpt (all of them for an empty query), with counts and whether the caller liked each. |
| Articles.EmptyQueryListsAll | controllers/article.controllers.js:367-376 | With no query both listings show every article. |
| Articles.ListingsNewestFirst | controllers/article.controllers.js:396 | With keys ascending in storage order, both listings have keys strictly descending. |
| Articles.GetArticleById | controllers/article.controllers.js:620-644 | 404 exactly when no article has the key. Otherwise 200 with that article and exactly its comments and likes. |
| Appointments.GetAllAppointments | controllers/appointment.controllers.js:11-44 | 401 without a token, 500 for a bad one. Otherwise exactly the caller's appointments, as a multiset, sorted by (date, time). |
| Appointments.GetDoctorAppointments | controllers/appointment.controllers.js:46-97 | Adds 403 "No doctor found for this user" when the caller has no Doctor profile. Otherwise exactly that doctor's appointments, sorted by (date, time). |
| Appointments.ByDateTimeIsPreorder | controllers/appointment.controllers.js:27 | ORDER BY date, time is a total preorder. |
| Appointments.StartTimeOfSlot | controllers/appointment.controllers.js:108 | For "start - end", the stored time is start, when start has no dash. |
| Appointments.StartTimeWithoutSeparator | controllers/appointment.controllers.js:108 | A slot without " - " is stored whole. |
| Appointments.CreateAppointment | controllers/appointment.controllers.js:99-128 | A missing doctor, user, date or slot gives 400 with nothing stored. Otherwise it stores one appointment with the slot's start time and status "Pending", consulting no slot and no other appointment. |
| Appointments.GetMonthlyAppointments | controllers/appointment.controllers.js:130-166 | 400 without a year. Otherwise twelve counts, entry i being the appointments dated in month i+1 of that year. |
| Monthly.GroupByMonth | controllers/appointment.controllers.js:139-148 | One group per month 1..12 that has rows, carrying that month's row count. |
| Monthly.ZeroFill | controllers/appointment.controllers.js:150-156 | Twelve entries. A non-zero entry comes from the group of its month, and a month without a group gives 0. |
| Monthly.ZeroFillCountsEachMonth | controllers/event.controllers.js:176-182 | Entry i of the zero-filled grouping is the number of rows in month i+1. |
| Monthly.ZeroFillEntry | controllers/event.controllers.js:176-182 | When the groups count their months' rows and include every month that has rows, the entry for month m is that month's row count, and 0 when the month has no group. |
| Monthly.YearCounts | controllers/event.controllers.js:164-182 | Restricting to year y, grouping by month and zero-filling puts, in entry i, the rows dated in month i+1 of year y. |
| Monthly.ZeroFillSum | controllers/appointment.controllers.js:150-156 | The twelve entries add up to the rows in months 1..12, which is all the rows when every month is a calendar month. |
| Monthly.MonthlyReply | controllers/event.controllers.js:158-182 | None without a year. Otherwise twelve entries, entry i counting the rows in month i+1 of that year. |
| Doctors.CreateAvailability | controllers/doctor.controllers.js:14-38 | A missing doctor, date, start or end gives 400 with nothing stored. Otherwise it stores the slot as given, with status "available" by default and no overlap check, and answers 201. |
| Doctors.GetAvailabilitiesByDoctor | controllers/doctor.controllers.js:40-66 | 400 when the doctor or the date is missing from the query. Any given key passes, including 0. Otherwise the reply holds exactly that doctor's slots on that date, as a permutation of them, sorted by start time. |
| Doctors.DisplayName | controllers/doctor.controllers.js:181-183 | "Dr. first last", or "Dr. first middle last" when there is a middle name. |
| Doctors.StatusLabel | controllers/doctor.controllers.js:185-190 | enabled gives Active and disabled gives Inactive (each iff); anything else gives Pending. |
| Doctors.Specialty | controllers/doctor.controllers.js:184 | The doctor's field's name when the field exists and has a non-empty name, otherwise "General". Never empty. |
| Doctors.BookedList | controllers/doctor.controllers.js:194-198 | One entry per appointment, in order, with "User " and the user key, its status, and date "T" time. |
| Doctors.BookedNamesItsUser | controllers/doctor.controllers.js:195 | The "User <key>" label starts with "User " and the rest reads back as the appointment's user key. |
| Doctors.GetAllDoctors | controllers/doctor.controllers.js:155-206 | Every doctor once, in key order, each formatted with their own appointments. |
| Doctors.FormatListsOwnAppointments | controllers/doctor.controllers.js:164-175 | A doctor's entry lists exactly their appointments. |
| Doctors.GetDoctorById | controllers/doctor.controllers.js:207-237 | As written: 401 without a token and 500 for a bad one. 403 unless the role claim is the literal "doctor". 404 when the caller has no Doctor row, else 200 with it. |
| Doctors.LoggedInDoctorIsRefused | controllers/doctor.controllers.js:214 | A doctor presenting the token login signed is refused with 403. |
| Doctors.GetDoctorByIdFixed | controllers/doctor.controllers.js:207-237 | The same, with the role checked by comparing "doctor" against the digest, as the other handlers do. |
| Doctors.LoggedInDoctorGetsProfile | controllers/auth.controllers.js:172-177 | With the fix, a doctor with a profile who logged in gets 200 and their own profile. |
| Doctors.OtherRolesStillRefused | controllers/doctor.controllers.js:214-218 | With the fix, users of other roles still get 403. |
| Doctors.WithEmail | controllers/doctor.controllers.js:324-326 | Every row with the caller's key gets the new email, and every other row is unchanged. Every row keeps its key, password, role, status and picture. |
| Doctors.WithEmailFindsNewEmail | controllers/doctor.controllers.js:324-326 | After the update, the caller's row found by key is the old row with the new email. A key with no row still has none. |
| Doctors.PatchDoctors | controllers/doctor.controllers.js:329-339 | Rows of other users are unchanged. In the caller's rows, each of the six profile fields takes the given value when the body has one and keeps its value otherwise. Key, user key and status never change. |
| Doctors.Run | controllers/doctor.controllers.js:319-374 | The retry loop makes between 1 and 3 attempts and always ends in 200, 404, 409 or 500. |
| Doctors.NoRetryUnlessReset | controllers/doctor.controllers.js:351-372 | An error that is not ECONNRESET ends the loop after one attempt: 409 exactly for the unique-constraint error, else 500. |
| Doctors.UniqueViolationIsNoReset | controllers/doctor.controllers.js:352-355 | A unique-constraint error is never taken for a dropped connection. |
| Doctors.TakenEmailGives409 | controllers/doctor.controllers.js:364-366 | An email another user has gives 409 after one attempt with both tables untouched. |
| Doctors.ResetEveryTimeGives500 | controllers/doctor.controllers.js:352-372 | ECONNRESET on every attempt gives 500 after exactly 3 attempts, whenever the body makes an attempt query the database. |
| Doctors.RetryRecovers | controllers/doctor.controllers.js:352-361 | A reset followed by a clean attempt ends as the clean attempt alone would, after 2 attempts. |
| Doctors.EmailSurvivesLaterFailure | controllers/doctor.controllers.js:324-339 | The email written before a failing profile update stays written. |
| Doctors.EmptyPatchGives404 | controllers/doctor.controllers.js:324-342 | A body with an email and no profile field writes the email and still answers 404 "Doctor profile not found." after one attempt. Doctor.update drops the undefined values and reports 0 rows. |
| Doctors.TryOnce | controllers/doctor.controllers.js:321-347 | One pass of the try block. The email is written exactly when it is given, no fault hits that step and no other user has it, whatever happens after. A reply is 200 or 404. A unique violation comes from a fault or an email clash. A 404 means the body had no profile field or the caller has no doctor row. A 200 means profile fields were given and the update ran: the doctors are patched and the reply carries one of the patched rows, belonging to the caller. Otherwise the doctors are unchanged. |
| Doctors.Attempt | controllers/doctor.controllers.js:322-347 | One pass of the try block, as the Run specification describes it. |
| Doctors.UpdateDoctorProfile | controllers/doctor.controllers.js:297-375 | No token gives 401. A bad token gets no answer. Otherwise the reply, both tables and the attempt count are those of Run. |
| Events.CreateEvent | controllers/event.controllers.js:42-86 | A missing title, date or time gives 400 with nothing stored. Otherwise it stores the event (status "upcoming" by default), then one "new_event" notice per user pointing at it, and answers 201. |
| Events.EventNoticesReachEveryoneOnce | controllers/event.controllers.js:65-76 | Every user gets exactly one notice, the poster included, and no one else gets one. There are none when there are no users. |
| Events.Capitalize | controllers/event.controllers.js:249-251 | Upper-cases the first character and keeps the rest. "" gives "". |
| Events.CapitalizeIdempotent | controllers/event.controllers.js:249-251 | Capitalizing twice is capitalizing once, and it changes nothing but the case of the first letter. |
| Events.GetAllEvents | controllers/event.controllers.js:88-152 | Exactly the matching events, by date ascending, each with its count of enabled interests and its status capitalized. |
| Events.NoFilterListsAll | controllers/event.controllers.js:95-110 | No keyword and no date, with status absent or "all" in any case, lists every event. |
| Events.StatusFilterIgnoresCase | controllers/event.controllers.js:108-110 | The status filter gives the same result for a status and its lower-cased form. |
| Events.InterestCounting | controllers/event.controllers.js:126-128 | Only an enabled interest in the event raises its count, and by exactly one. |
| Events.GetMonthlyEvents | controllers/event.controllers.js:154-193 | 400 without a year. Otherwise twelve counts, entry i being the events dated in month i+1 of that year. |
| Messages.SendMessageClient | controllers/message.controllers.js:83-116 | An unknown receiver gives 404 "Doctor not found" with nothing stored. Otherwise it stores one message and one unread "message" notice for the receiver pointing at it. |
| Messages.SendMessageDoctor | controllers/message.controllers.js:118-137 | Stores one message and one notice for any receiver key, existing or not. |
| Messages.GetConversation | controllers/message.controllers.js:139-166 | Exactly the messages between the two users in either direction, each as often as stored. |
| Messages.ConversationSymmetric | controllers/message.controllers.js:143-149 | Swapping the two users gives the same conversation. |
| Messages.ConversationInSendingOrder | controllers/message.controllers.js:150 | Messages stored in key order are shown in key order. |
| Messages.SentMessageEndsConversation | controllers/message.controllers.js:95-100 | A new message between the two is appended to their conversation, and leaves others unchanged. |
| Messages.MarkAsRead | controllers/message.controllers.js:168-185 | Marks the message read and its "message" notices read, and answers success even for an unknown key. |
| Messages.MarkedAreRead | controllers/message.controllers.js:172-178 | Afterwards that message and its notices are read, and every other row is unchanged. |
| Messages.MarkAsReadIdempotent | controllers/message.controllers.js:172-178 | Marking twice leaves both tables as marking once. |
| Dashboard.GetCounts | controllers/dashboard.controllers.js:6-33 | The doctor and event counts are the table sizes for every caller. Unread is 0 without a user and is never more than the messages the user received. |
| Dashboard.UnreadAfterSend | controllers/dashboard.controllers.js:16-21 | A stored unread message raises its receiver's unread count by one and nobody else's. |
| Dashboard.UnreadAfterMark | controllers/dashboard.controllers.js:16-21 | Marking a message read never raises an unread count, and lowers the receiver's when it was unread. |
| Notify.Broadcast | controllers/event.controllers.js:67-73 | One unread notice per recipient, in order, all with the same type, text and related key, under consecutive fresh keys. |
| Notify.NotifyEach | controllers/article.controllers.js:339-347 | The per-user insert loop stores exactly the broadcast batch. |
| Notify.NotifyAll | controllers/event.controllers.js:75 | The bulk insert stores the same batch in one step. |
| Notify.ExcludingActorReachesOthersOnce | controllers/article.controllers.js:335-337 | Excluding the actor's key reaches every other user exactly once. |

## Left out

- Articles.CreateArticle and Events.CreateEvent: the recipients come from `User.findAll` with no ORDER BY. The model sends the notices in table order and gives them consecutive keys in that order. The database may return the users in another order.
- Auth.NewestOtp: createdAt order is modelled as storage order, since rows are created in key order and createdAt is never written otherwise.
- Doctors.TryOnce: the 200 reply carries the patched first row, as `returning: true` gives on databases that support it. The dialect is configured outside the controllers, and without that support `updatedDoctor` is undefined.
- Auth.RegisterDoctor, Auth.RegisterClient and Auth.RegisterAdmin: missing profile fields (names, contact, field) are stored as given. Column constraints that would reject them are in model files that are not part of this model.
- Doctors.GetAllDoctors: each doctor's appointments are listed in table order. The ORDER BY covers doctors only, so the database may list appointments in any order.
- Auth.SendOtp: the stored row's status is "unused". The handler passes no status, so this is the column default assumed from models/otp.model.js, which is not part of this model. Any expiry column is left out too.
- Events.GetAllEvents: the date stays a date. `toLocaleDateString` formatting is left out.
- Events.GetMonthlyEvents and Appointments.GetMonthlyAppointments: the short month names (`toLocaleString`) are left out.
- Text.LikeQuery: SQL LIKE is modelled as a case-insensitive substring test.
  - It ignores `%` and `_` inside the query, NULL columns and collations.
  - Lower- and upper-casing cover ASCII letters only.
- Events.Matches: Op.iLike is treated as case-insensitive LIKE, which assumes PostgreSQL: it is the only Sequelize dialect with ILIKE, and on the others getAllEvents with a keyword fails with 500. The status is compared exactly, ignoring column collation.
- Events.GetMonthlyEvents: the SQL functions MONTH() and YEAR() are assumed to exist, which holds for the MySQL family and MSSQL but not for PostgreSQL or SQLite, where the handler answers 500. The dialect is set in config/db.config.js, which is not part of this model. No single dialect makes this handler, Appointments.GetMonthlyAppointments and the keyword search of getAllEvents all succeed, while the model has all three succeed.
- Appointments.GetMonthlyAppointments: the same MONTH()/YEAR() assumption as Events.GetMonthlyEvents, so it also conflicts with the ILIKE that Events.Matches assumes.
- Articles.Listing: createdAt order is modelled as storage order. Rows created in the same instant are not distinguished.
- Messages.GetConversation: createdAt order is modelled as storage order. The included sender and receiver user columns are not modelled.
- bcrypt, jwt and randomness become inputs:
  - bcrypt's salt is a parameter;
  - jwt signing and verifying become the token's three cases;
  - `Math.random()` becomes the `draw` argument of `Auth.OtpCode`.
- Errors thrown by the ORM or the network are left out. That covers the 500 catch branches where a write or query fails. There are two exceptions. The 500 for a missing body field is modelled in register, login, verifyOtp and changePassword. In updateDoctorProfile such errors are inputs (`faults`), since its retry loop depends on them.
- The retry delay (`setTimeout`) is left out; only the attempt counter is modelled.
- Transactions are not modelled. Registration's failure paths write nothing because the checks run before the writes. A write that fails after an earlier one succeeded is not modelled, except in updateDoctorProfile.
- All tables share one key counter. Each real table has its own auto-increment sequence. Only freshness matters here.
- File uploads are plain strings: the event image path and the doctor's valid ID file name.
- Handlers left out:
  - changeProfilePicture is a field copy.
  - getDoctorDashboard and getUpcomingEventsThisMonth depend on the current date.
  - The client and admin profile controllers are field copies.
  - The routes are wiring only.
- Message and notification reads are modelled as false on creation. That default comes from the model definitions, which are not part of this model.
- Time strings ("09:00") are ordered as text, character by character, which is how the TIME column sorts for zero-padded times.

## Findings

| source | as written | input that shows it | evidently intended | confidence | as-written member | corrected member |
|---|---|---|---|---|---|---|
| controllers/doctor.controllers.js:214 | `decoded.role === "doctor"` compares the role claim with the plain text "doctor" | Any doctor who logs in: login (controllers/auth.controllers.js:172-177) signs a bcrypt digest of the role, never the text, so the handler answers 403 "Access denied. Not a doctor." | compare "doctor" against the digest with bcrypt, as getProfile and verifyToken do | high, not executed | Doctors.GetDoctorById, Doctors.LoggedInDoctorIsRefused | Doctors.GetDoctorByIdFixed, Doctors.LoggedInDoctorGetsProfile |
