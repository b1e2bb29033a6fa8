/** The dashboard counters: how many doctors and events there are, and
    how many unread messages the caller has. */
module Dashboard {
  import opened Store
  import opened Seqs
  import opened Messages

  /** Messages to user `u` not yet read. */
  function Unread(messages: seq<Message>, u: Id): nat {
    Count(messages, (m: Message) => m.receiverId == u && !m.read)
  }

  datatype Counts = Counts(doctorCount: nat, eventCount: nat, unreadMessages: nat)

  /** Table sizes for everybody; the unread count only with a caller (0
      when the request carries no user id). */
  function GetCounts(doctors: seq<Doctor>, events: seq<Event>, messages: seq<Message>, userId: Id)
    : (r: Counts)
    ensures r.doctorCount == |doctors| && r.eventCount == |events|
    ensures userId == 0 ==> r.unreadMessages == 0
    ensures userId != 0 ==> r.unreadMessages == Unread(messages, userId)
    ensures r.unreadMessages <= |Where(messages, (m: Message) => m.receiverId == userId)|
  {
    UnreadAtMostReceived(messages, userId);
    Counts(|doctors|, |events|, if userId != 0 then Unread(messages, userId) else 0)
  }

  /** Unread messages are among the messages received. */
  lemma {:induction false} UnreadAtMostReceived(messages: seq<Message>, u: Id)
    ensures Unread(messages, u) <= |Where(messages, (m: Message) => m.receiverId == u)|
  {
    if messages != [] {
      UnreadAtMostReceived(messages[1..], u);
    }
  }

  /** A stored message raises its receiver's unread count by one and
      nobody else's. */
  lemma {:induction false} UnreadAfterSend(messages: seq<Message>, m: Message, u: Id)
    requires !m.read
    ensures Unread(messages + [m], u) == Unread(messages, u) + (if m.receiverId == u then 1 else 0)
  {
    WhereAppend(messages, [m], (x: Message) => x.receiverId == u && !x.read);
    assert Where([m], (x: Message) => x.receiverId == u && !x.read)
        == if m.receiverId == u then [m] else [];
  }

  /** Marking a message read never raises an unread count, and lowers the
      receiver's when that message was unread. */
  lemma {:induction false} UnreadAfterMark(messages: seq<Message>, id: Id, u: Id)
    ensures Unread(ReadMessages(messages, id), u) <= Unread(messages, u)
    ensures (exists m :: m in messages && m.id == id && m.receiverId == u && !m.read) ==>
      Unread(ReadMessages(messages, id), u) < Unread(messages, u)
  {
    if messages != [] {
      UnreadAfterMark(messages[1..], id, u);
      assert ReadMessages(messages, id)[1..] == ReadMessages(messages[1..], id);
      if exists m :: m in messages && m.id == id && m.receiverId == u && !m.read {
        var w :| w in messages && w.id == id && w.receiverId == u && !w.read;
        if w != messages[0] {
          assert w in messages[1..];
        }
      }
    }
  }
}
