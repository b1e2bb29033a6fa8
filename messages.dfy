/** Direct messages between clients and doctors: sending (which also
    notifies the receiver), reading a conversation, and marking a message
    and its notices read. */
module Messages {
  import opened Base
  import opened Store
  import opened Seqs
  import opened Ordering

  /** Inserts the message, then one unread "message" notice for the
      receiver pointing at it. */
  method Deliver(db: Database, senderId: Id, receiverId: Id, kind: string, content: string,
                 text: string) returns (msg: Message)
    requires db.Valid()
    modifies db`messages, db`notifications, db`nextId
    ensures db.Valid()
    ensures msg == Message(old(db.nextId), senderId, receiverId, kind, content, false)
    ensures db.messages == old(db.messages) + [msg]
    ensures db.notifications == old(db.notifications)
      + [Notification(msg.id + 1, receiverId, "message", "New Message Received", text, msg.id, false)]
    ensures db.nextId == old(db.nextId) + 2
  {
    msg := db.CreateMessage(Message(0, senderId, receiverId, kind, content, false));
    var _ := db.CreateNotification(Notification(0, receiverId, "message", "New Message Received",
                                                text, msg.id, false));
  }

  /** 404 and nothing stored when no user has the receiver's key;
      otherwise one message to that user and one notice of it. */
  method SendMessageClient(db: Database, senderId: Id, receiverId: Id, kind: string, content: string)
    returns (r: Reply<Message>)
    requires db.Valid()
    modifies db`messages, db`notifications, db`nextId
    ensures db.Valid()
    ensures FindUser(db.users, receiverId).None? ==> r == Fail(404, "Doctor not found") && unchanged(db)
    ensures FindUser(db.users, receiverId).Some? ==>
      var m := Message(old(db.nextId), senderId, receiverId, kind, content, false);
      && r == Reply(200, "", Some(m))
      && db.messages == old(db.messages) + [m]
      && db.notifications == old(db.notifications)
         + [Notification(m.id + 1, receiverId, "message", "New Message Received",
                         "You have received a new message from a client.", m.id, false)]
      && db.nextId == old(db.nextId) + 2
  {
    var doctor := FindUser(db.users, receiverId);
    if doctor.None? {
      return Fail(404, "Doctor not found");
    }
    var msg := Deliver(db, senderId, doctor.value.id, kind, content,
                       "You have received a new message from a client.");
    return Reply(200, "", Some(msg));
  }

  /** The same without looking the receiver up: a message and a notice are
      stored for any receiver key, existing or not. */
  method SendMessageDoctor(db: Database, senderId: Id, receiverId: Id, kind: string, content: string)
    returns (r: Reply<Message>)
    requires db.Valid()
    modifies db`messages, db`notifications, db`nextId
    ensures db.Valid()
    ensures var m := Message(old(db.nextId), senderId, receiverId, kind, content, false);
      && r == Reply(200, "", Some(m))
      && db.messages == old(db.messages) + [m]
      && db.notifications == old(db.notifications)
         + [Notification(m.id + 1, receiverId, "message", "New Message Received",
                         "You have received a new message from your doctor.", m.id, false)]
      && db.nextId == old(db.nextId) + 2
  {
    var msg := Deliver(db, senderId, receiverId, kind, content,
                       "You have received a new message from your doctor.");
    return Reply(200, "", Some(msg));
  }

  /** The message went from `a` to `b` or from `b` to `a`. */
  predicate Between(m: Message, a: Id, b: Id) {
    (m.senderId == a && m.receiverId == b) || (m.senderId == b && m.receiverId == a)
  }

  /** The messages between the two users in either direction, in the
      order they were stored (createdAt ascending). */
  function GetConversation(messages: seq<Message>, a: Id, b: Id): (r: seq<Message>)
    ensures forall m :: m in r <==> m in messages && Between(m, a, b)
    ensures forall m :: multiset(r)[m] == if Between(m, a, b) then multiset(messages)[m] else 0
  {
    WhereMultiset(messages, (m: Message) => Between(m, a, b));
    Where(messages, (m: Message) => Between(m, a, b))
  }

  /** Either user may ask: the conversation is the same. */
  lemma ConversationSymmetric(messages: seq<Message>, a: Id, b: Id)
    ensures GetConversation(messages, a, b) == GetConversation(messages, b, a)
  {
    WhereSame(messages, (m: Message) => Between(m, a, b), (m: Message) => Between(m, b, a));
  }

  /** Messages stored in key order are shown in key order. */
  lemma ConversationInSendingOrder(messages: seq<Message>, a: Id, b: Id)
    requires Sorted(messages, (x: Message, y: Message) => x.id < y.id)
    ensures Sorted(GetConversation(messages, a, b), (x: Message, y: Message) => x.id < y.id)
  {
    WhereKeepsOrder(messages, (m: Message) => Between(m, a, b), (x: Message, y: Message) => x.id < y.id);
  }

  /** A message just sent between the two ends their conversation; one
      between others leaves it as it was. */
  lemma SentMessageEndsConversation(messages: seq<Message>, m: Message, a: Id, b: Id)
    ensures GetConversation(messages + [m], a, b)
         == GetConversation(messages, a, b) + (if Between(m, a, b) then [m] else [])
  {
    WhereAppend(messages, [m], (x: Message) => Between(x, a, b));
    assert Where([m], (x: Message) => Between(x, a, b)) == if Between(m, a, b) then [m] else [];
  }

  /** Message.update({ read: true }, { where: { message_id } }). */
  function ReadMessages(messages: seq<Message>, id: Id): (r: seq<Message>)
    ensures |r| == |messages|
    ensures forall k :: 0 <= k < |r| ==>
      && r[k].id == messages[k].id && r[k].senderId == messages[k].senderId
      && r[k].receiverId == messages[k].receiverId && r[k].kind == messages[k].kind
      && r[k].content == messages[k].content
    ensures forall k :: 0 <= k < |r| && messages[k].id == id ==> r[k].read
    ensures forall k :: 0 <= k < |r| && messages[k].id != id ==> r[k] == messages[k]
  {
    seq(|messages|, k requires 0 <= k < |messages| =>
      if messages[k].id == id then messages[k].(read := true) else messages[k])
  }

  /** The notices a message-read also marks: type "message", pointing at it. */
  predicate NoticeOf(n: Notification, id: Id) {
    n.relatedId == id && n.kind == "message"
  }

  /** Notification.update({ is_read: true }, { where: { related_id, type: "message" } }). */
  function ReadNotices(ns: seq<Notification>, id: Id): (r: seq<Notification>)
    ensures |r| == |ns|
    ensures forall k :: 0 <= k < |r| ==>
      && r[k].id == ns[k].id && r[k].userId == ns[k].userId && r[k].kind == ns[k].kind
      && r[k].title == ns[k].title && r[k].text == ns[k].text && r[k].relatedId == ns[k].relatedId
    ensures forall k :: 0 <= k < |r| && NoticeOf(ns[k], id) ==> r[k].isRead
    ensures forall k :: 0 <= k < |r| && !NoticeOf(ns[k], id) ==> r[k] == ns[k]
  {
    seq(|ns|, k requires 0 <= k < |ns| =>
      if NoticeOf(ns[k], id) then ns[k].(isRead := true) else ns[k])
  }

  /** Marks the message and its notices read; 200 whether or not any row
      has that key. */
  method MarkAsRead(db: Database, id: Id) returns (r: Reply<bool>)
    requires db.Valid()
    modifies db`messages, db`notifications
    ensures db.Valid()
    ensures r == Reply(200, "", Some(true))
    ensures db.messages == ReadMessages(old(db.messages), id)
    ensures db.notifications == ReadNotices(old(db.notifications), id)
  {
    db.UpdateMessages(ReadMessages(db.messages, id));
    db.UpdateNotifications(ReadNotices(db.notifications, id));
    return Reply(200, "", Some(true));
  }

  /** Afterwards the message and its notices are read, and every other row
      is as it was. */
  lemma MarkedAreRead(messages: seq<Message>, ns: seq<Notification>, id: Id)
    ensures forall m :: m in ReadMessages(messages, id) && m.id == id ==> m.read
    ensures forall m :: m in messages && m.id != id ==> m in ReadMessages(messages, id)
    ensures forall n :: n in ReadNotices(ns, id) && NoticeOf(n, id) ==> n.isRead
    ensures forall n :: n in ns && !NoticeOf(n, id) ==> n in ReadNotices(ns, id)
  {
    forall m | m in messages && m.id != id
      ensures m in ReadMessages(messages, id)
    {
      var k :| 0 <= k < |messages| && messages[k] == m;
      assert ReadMessages(messages, id)[k] == m;
    }
    forall n | n in ns && !NoticeOf(n, id)
      ensures n in ReadNotices(ns, id)
    {
      var k :| 0 <= k < |ns| && ns[k] == n;
      assert ReadNotices(ns, id)[k] == n;
    }
  }

  /** Marking twice leaves the tables as marking once. */
  lemma MarkAsReadIdempotent(messages: seq<Message>, ns: seq<Notification>, id: Id)
    ensures ReadMessages(ReadMessages(messages, id), id) == ReadMessages(messages, id)
    ensures ReadNotices(ReadNotices(ns, id), id) == ReadNotices(ns, id)
  {
  }
}
