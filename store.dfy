/** The relational store the controllers read and write, held in memory:
    one sequence of rows per table, in insertion order, and the counter
    that hands out fresh primary keys.  Also the values every handler
    shares: the verified token, the bcrypt digest and the reply. */
module Store {
  import opened Base

  /** A primary or foreign key.  Keys handed out by the store are >= 1, so
      0 stands for an id the request left out (falsy in the controllers). */
  type Id = nat

  /** bcrypt.hash(plain, cost) with the random salt it draws.  compare and
      compareSync succeed exactly when the digest was made from `plain`. */
  datatype Digest = Bcrypt(plain: string, salt: nat)

  predicate Matches(plain: string, d: Digest) {
    d.plain == plain
  }

  /** The `role` claim of a session token: login stores a bcrypt digest of
      the role there; a token signed elsewhere may carry plain text. */
  datatype RoleClaim = HashedRole(digest: Digest) | PlainRole(text: string)

  /** bcrypt.compare(plain, decoded.role): true only for a digest of `plain`. */
  predicate RoleIs(plain: string, c: RoleClaim) {
    c.HashedRole? && Matches(plain, c.digest)
  }

  datatype Claims = Claims(userId: Id, role: RoleClaim)

  /** What a handler gets from its token: none at all, one that
      jwt.verify rejects (bad signature, expired, malformed), or the
      verified payload. */
  datatype Token = NoToken | BadToken | Verified(claims: Claims)

  /** An HTTP reply: the status code, the `message` the handler writes and
      the payload it sends on success.  Status 0 is a handler that never
      answers (an exception thrown outside its try block). */
  datatype Reply<T> = Reply(status: nat, message: string, body: Option<T>)

  function Fail<T>(status: nat, message: string): Reply<T> {
    Reply(status, message, None)
  }

  // ----- rows -----

  datatype User = User(id: Id, email: string, password: Digest, role: string,
                       status: string, picture: string)
  datatype Doctor = Doctor(id: Id, userId: Id, firstName: string, middleName: string,
                           lastName: string, fieldId: Id, contact: string,
                           validId: string, status: string)
  datatype Client = Client(id: Id, userId: Id, firstName: string, middleName: string,
                           lastName: string, fieldId: Id, contact: string, status: string)
  datatype Admin = Admin(id: Id, userId: Id, firstName: string, middleName: string,
                         lastName: string, contact: string, status: string)
  datatype Field = Field(id: Id, name: string)
  datatype Otp = Otp(id: Id, userId: Id, code: string, status: string)
  datatype Article = Article(id: Id, userId: Id, title: string, slug: string,
                             content: string, excerpt: string, status: string)
  datatype Like = Like(id: Id, userId: Id, articleId: Id)
  datatype Comment = Comment(id: Id, articleId: Id, userId: Id, content: string)
  datatype Notification = Notification(id: Id, userId: Id, kind: string, title: string,
                                       text: string, relatedId: Id, isRead: bool)
  datatype Message = Message(id: Id, senderId: Id, receiverId: Id, kind: string,
                             content: string, read: bool)
  datatype Appointment = Appointment(id: Id, doctorId: Id, userId: Id, date: Date,
                                     time: string, remarks: string, status: string)
  datatype Slot = Slot(id: Id, doctorId: Id, date: Date, startTime: string,
                       endTime: string, status: string)
  datatype Event = Event(id: Id, title: string, date: Date, time: string,
                         description: string, location: string, status: string,
                         image: string)
  datatype Interest = Interest(id: Id, eventId: Id, userId: Id, status: string)

  /** The user with primary key `id` (User.findByPk). */
  function FindUser(users: seq<User>, id: Id): (r: Option<User>)
    ensures r.Some? ==> r.value in users && r.value.id == id
    ensures r.None? ==> forall u :: u in users ==> u.id != id
  {
    if users == [] then None
    else if users[0].id == id then Some(users[0])
    else FindUser(users[1..], id)
  }

  /** The first user with this email (User.findOne({ where: { email } })). */
  function FindByEmail(users: seq<User>, email: string): (r: Option<User>)
    ensures r.Some? ==> r.value in users && r.value.email == email
    ensures r.None? ==> forall u :: u in users ==> u.email != email
  {
    if users == [] then None
    else if users[0].email == email then Some(users[0])
    else FindByEmail(users[1..], email)
  }

  /** The article with primary key `id` (Article.findByPk). */
  function FindArticle(articles: seq<Article>, id: Id): (r: Option<Article>)
    ensures r.Some? ==> r.value in articles && r.value.id == id
    ensures r.None? ==> forall a :: a in articles ==> a.id != id
  {
    if articles == [] then None
    else if articles[0].id == id then Some(articles[0])
    else FindArticle(articles[1..], id)
  }

  /** The first Doctor profile of a user (Doctor.findOne({ where: { user_id } })). */
  function DoctorOfUser(doctors: seq<Doctor>, userId: Id): (r: Option<Doctor>)
    ensures r.Some? ==> r.value in doctors && r.value.userId == userId
    ensures r.None? ==> forall d :: d in doctors ==> d.userId != userId
  {
    if doctors == [] then None
    else if doctors[0].userId == userId then Some(doctors[0])
    else DoctorOfUser(doctors[1..], userId)
  }

  /** The first Client profile of a user. */
  function ClientOfUser(clients: seq<Client>, userId: Id): (r: Option<Client>)
    ensures r.Some? ==> r.value in clients && r.value.userId == userId
    ensures r.None? ==> forall c :: c in clients ==> c.userId != userId
  {
    if clients == [] then None
    else if clients[0].userId == userId then Some(clients[0])
    else ClientOfUser(clients[1..], userId)
  }

  /** The first Admin profile of a user. */
  function AdminOfUser(admins: seq<Admin>, userId: Id): (r: Option<Admin>)
    ensures r.Some? ==> r.value in admins && r.value.userId == userId
    ensures r.None? ==> forall a :: a in admins ==> a.userId != userId
  {
    if admins == [] then None
    else if admins[0].userId == userId then Some(admins[0])
    else AdminOfUser(admins[1..], userId)
  }

  /** No two users share an email: what the registration handlers keep. */
  ghost predicate UniqueEmails(users: seq<User>) {
    forall i, j :: 0 <= i < j < |users| ==> users[i].email != users[j].email
  }

  /** Every row's key was handed out by the counter: 1 <= key < next. */
  ghost predicate KeysBelow<T>(rows: seq<T>, key: T -> Id, next: Id) {
    forall i :: 0 <= i < |rows| ==> 1 <= key(rows[i]) < next
  }

  /** Users are kept in primary-key order, so each key occurs once. */
  ghost predicate KeyOrdered(users: seq<User>) {
    forall i, j :: 0 <= i < j < |users| ==> users[i].id < users[j].id
  }

  /** At most one like per (user, article) pair: what toggleLike keeps. */
  ghost predicate UniquePairs(likes: seq<Like>) {
    forall i, j :: 0 <= i < j < |likes| ==>
      !(likes[i].userId == likes[j].userId && likes[i].articleId == likes[j].articleId)
  }

  /** The store.  Every row's key is below `nextId`, so the key the next
      insert takes is fresh; users are kept in key order. */
  class Database {
    var users: seq<User>
    var doctors: seq<Doctor>
    var clients: seq<Client>
    var admins: seq<Admin>
    var fields: seq<Field>
    var otps: seq<Otp>
    var articles: seq<Article>
    var likes: seq<Like>
    var comments: seq<Comment>
    var notifications: seq<Notification>
    var messages: seq<Message>
    var appointments: seq<Appointment>
    var slots: seq<Slot>
    var events: seq<Event>
    var interests: seq<Interest>
    var nextId: Id

    ghost predicate Valid()
      reads this
    {
      && 1 <= nextId
      && KeyOrdered(users)
      && KeysBelow(users, (r: User) => r.id, nextId)
      && KeysBelow(doctors, (r: Doctor) => r.id, nextId)
      && KeysBelow(clients, (r: Client) => r.id, nextId)
      && KeysBelow(admins, (r: Admin) => r.id, nextId)
      && KeysBelow(otps, (r: Otp) => r.id, nextId)
      && KeysBelow(articles, (r: Article) => r.id, nextId)
      && KeysBelow(likes, (r: Like) => r.id, nextId)
      && UniquePairs(likes)
      && KeysBelow(comments, (r: Comment) => r.id, nextId)
      && KeysBelow(notifications, (r: Notification) => r.id, nextId)
      && KeysBelow(messages, (r: Message) => r.id, nextId)
      && KeysBelow(appointments, (r: Appointment) => r.id, nextId)
      && KeysBelow(slots, (r: Slot) => r.id, nextId)
      && KeysBelow(events, (r: Event) => r.id, nextId)
    }

    constructor ()
      ensures Valid() && nextId == 1
      ensures users == [] && doctors == [] && clients == [] && admins == []
      ensures fields == [] && otps == [] && articles == [] && likes == []
      ensures comments == [] && notifications == [] && messages == []
      ensures appointments == [] && slots == [] && events == [] && interests == []
    {
      users, doctors, clients, admins := [], [], [], [];
      fields, otps, articles, likes := [], [], [], [];
      comments, notifications, messages := [], [], [];
      appointments, slots, events, interests := [], [], [], [];
      nextId := 1;
    }

    /** The auto-increment key of the next inserted row. */
    method NewId() returns (id: Id)
      requires Valid()
      modifies this`nextId
      ensures Valid()
      ensures id == old(nextId) && nextId == id + 1 && id >= 1
    {
      id := nextId;
      nextId := nextId + 1;
    }

    // Model.create(...): the row is stored under the next key and returned.

    method CreateUser(u: User) returns (row: User)
      requires Valid()
      modifies this`users, this`nextId
      ensures Valid()
      ensures row == u.(id := old(nextId)) && users == old(users) + [row]
      ensures nextId == old(nextId) + 1
    {
      row := u.(id := nextId);
      users := users + [row];
      nextId := nextId + 1;
    }

    method CreateDoctor(d: Doctor) returns (row: Doctor)
      requires Valid()
      modifies this`doctors, this`nextId
      ensures Valid()
      ensures row == d.(id := old(nextId)) && doctors == old(doctors) + [row]
      ensures nextId == old(nextId) + 1
    {
      row := d.(id := nextId);
      doctors := doctors + [row];
      nextId := nextId + 1;
    }

    method CreateClient(c: Client) returns (row: Client)
      requires Valid()
      modifies this`clients, this`nextId
      ensures Valid()
      ensures row == c.(id := old(nextId)) && clients == old(clients) + [row]
      ensures nextId == old(nextId) + 1
    {
      row := c.(id := nextId);
      clients := clients + [row];
      nextId := nextId + 1;
    }

    method CreateAdmin(a: Admin) returns (row: Admin)
      requires Valid()
      modifies this`admins, this`nextId
      ensures Valid()
      ensures row == a.(id := old(nextId)) && admins == old(admins) + [row]
      ensures nextId == old(nextId) + 1
    {
      row := a.(id := nextId);
      admins := admins + [row];
      nextId := nextId + 1;
    }

    method CreateOtp(o: Otp) returns (row: Otp)
      requires Valid()
      modifies this`otps, this`nextId
      ensures Valid()
      ensures row == o.(id := old(nextId)) && otps == old(otps) + [row]
      ensures nextId == old(nextId) + 1
    {
      row := o.(id := nextId);
      otps := otps + [row];
      nextId := nextId + 1;
    }

    method CreateArticle(a: Article) returns (row: Article)
      requires Valid()
      modifies this`articles, this`nextId
      ensures Valid()
      ensures row == a.(id := old(nextId)) && articles == old(articles) + [row]
      ensures nextId == old(nextId) + 1
    {
      row := a.(id := nextId);
      articles := articles + [row];
      nextId := nextId + 1;
    }

    /** Only called when the pair has no like yet, so pairs stay unique. */
    method CreateLike(l: Like) returns (row: Like)
      requires Valid()
      requires forall x :: x in likes ==> !(x.userId == l.userId && x.articleId == l.articleId)
      modifies this`likes, this`nextId
      ensures Valid()
      ensures row == l.(id := old(nextId)) && likes == old(likes) + [row]
      ensures nextId == old(nextId) + 1
    {
      row := l.(id := nextId);
      likes := likes + [row];
      nextId := nextId + 1;
    }

    method CreateComment(c: Comment) returns (row: Comment)
      requires Valid()
      modifies this`comments, this`nextId
      ensures Valid()
      ensures row == c.(id := old(nextId)) && comments == old(comments) + [row]
      ensures nextId == old(nextId) + 1
    {
      row := c.(id := nextId);
      comments := comments + [row];
      nextId := nextId + 1;
    }

    method CreateNotification(n: Notification) returns (row: Notification)
      requires Valid()
      modifies this`notifications, this`nextId
      ensures Valid()
      ensures row == n.(id := old(nextId)) && notifications == old(notifications) + [row]
      ensures nextId == old(nextId) + 1
    {
      row := n.(id := nextId);
      notifications := notifications + [row];
      nextId := nextId + 1;
    }

    method CreateMessage(m: Message) returns (row: Message)
      requires Valid()
      modifies this`messages, this`nextId
      ensures Valid()
      ensures row == m.(id := old(nextId)) && messages == old(messages) + [row]
      ensures nextId == old(nextId) + 1
    {
      row := m.(id := nextId);
      messages := messages + [row];
      nextId := nextId + 1;
    }

    method CreateAppointment(a: Appointment) returns (row: Appointment)
      requires Valid()
      modifies this`appointments, this`nextId
      ensures Valid()
      ensures row == a.(id := old(nextId)) && appointments == old(appointments) + [row]
      ensures nextId == old(nextId) + 1
    {
      row := a.(id := nextId);
      appointments := appointments + [row];
      nextId := nextId + 1;
    }

    method CreateSlot(sl: Slot) returns (row: Slot)
      requires Valid()
      modifies this`slots, this`nextId
      ensures Valid()
      ensures row == sl.(id := old(nextId)) && slots == old(slots) + [row]
      ensures nextId == old(nextId) + 1
    {
      row := sl.(id := nextId);
      slots := slots + [row];
      nextId := nextId + 1;
    }

    method CreateEvent(e: Event) returns (row: Event)
      requires Valid()
      modifies this`events, this`nextId
      ensures Valid()
      ensures row == e.(id := old(nextId)) && events == old(events) + [row]
      ensures nextId == old(nextId) + 1
    {
      row := e.(id := nextId);
      events := events + [row];
      nextId := nextId + 1;
    }

    // instance.destroy(): the row at index k goes.

    method DestroyLike(k: nat)
      requires Valid() && k < |likes|
      modifies this`likes
      ensures Valid()
      ensures likes == old(likes[..k] + likes[k + 1..])
    {
      ghost var was := likes;
      likes := likes[..k] + likes[k + 1..];
      assert forall i :: 0 <= i < |likes| ==> likes[i] == was[if i < k then i else i + 1];
    }

    method DestroyComment(k: nat)
      requires Valid() && k < |comments|
      modifies this`comments
      ensures Valid()
      ensures comments == old(comments[..k] + comments[k + 1..])
    {
      comments := comments[..k] + comments[k + 1..];
    }

    method DestroyOtp(k: nat)
      requires Valid() && k < |otps|
      modifies this`otps
      ensures Valid()
      ensures otps == old(otps[..k] + otps[k + 1..])
    {
      otps := otps[..k] + otps[k + 1..];
    }

    // Model.update(...): rows are rewritten in place, keys kept.

    method UpdateUsers(rows: seq<User>)
      requires Valid()
      requires |rows| == |users| && forall k :: 0 <= k < |rows| ==> rows[k].id == users[k].id
      modifies this`users
      ensures Valid() && users == rows
    {
      users := rows;
    }

    method UpdateDoctors(rows: seq<Doctor>)
      requires Valid()
      requires |rows| == |doctors| && forall k :: 0 <= k < |rows| ==> rows[k].id == doctors[k].id
      modifies this`doctors
      ensures Valid() && doctors == rows
    {
      doctors := rows;
    }

    method UpdateMessages(rows: seq<Message>)
      requires Valid()
      requires |rows| == |messages| && forall k :: 0 <= k < |rows| ==> rows[k].id == messages[k].id
      modifies this`messages
      ensures Valid() && messages == rows
    {
      messages := rows;
    }

    method UpdateNotifications(rows: seq<Notification>)
      requires Valid()
      requires |rows| == |notifications|
      requires forall k :: 0 <= k < |rows| ==> rows[k].id == notifications[k].id
      modifies this`notifications
      ensures Valid() && notifications == rows
    {
      notifications := rows;
    }
  }
}
