/** Notification fan-out: the rows a handler inserts when it tells a list
    of users about a new article, event, like, comment or message. */
module Notify {
  import opened Store
  import opened Seqs

  /** The keys of the rows of the Users table, in table order. */
  function UserIds(users: seq<User>): (r: seq<Id>)
    ensures |r| == |users|
    ensures forall k :: 0 <= k < |users| ==> r[k] == users[k].id
  {
    seq(|users|, k requires 0 <= k < |users| => users[k].id)
  }

  /** User.findAll({ where: { user_id: { [Op.ne]: exclude } } }), as keys. */
  function OtherUserIds(users: seq<User>, exclude: Id): seq<Id> {
    Where(UserIds(users), (id: Id) => id != exclude)
  }

  /** The recipient of each notification row, in row order. */
  function Addressees(ns: seq<Notification>): (r: seq<Id>)
    ensures |r| == |ns|
    ensures forall k :: 0 <= k < |ns| ==> r[k] == ns[k].userId
  {
    seq(|ns|, k requires 0 <= k < |ns| => ns[k].userId)
  }

  /** One unread notification per recipient, keyed from `first` on. */
  function Broadcast(recipients: seq<Id>, kind: string, title: string, text: string,
                     related: Id, first: Id): (r: seq<Notification>)
    ensures Addressees(r) == recipients
    ensures forall n :: n in r ==>
      n.kind == kind && n.title == title && n.text == text && n.relatedId == related && !n.isRead
    ensures forall k :: 0 <= k < |r| ==> r[k].id == first + k
  {
    seq(|recipients|, k requires 0 <= k < |recipients| =>
      Notification(first + k, recipients[k], kind, title, text, related, false))
  }

  lemma {:induction false} BroadcastSnoc(recipients: seq<Id>, x: Id, kind: string, title: string,
                                         text: string, related: Id, first: Id)
    ensures Broadcast(recipients + [x], kind, title, text, related, first)
         == Broadcast(recipients, kind, title, text, related, first)
            + [Notification(first + |recipients|, x, kind, title, text, related, false)]
  {
  }

  /** Primary keys are unique: each user's key occurs once among the keys. */
  lemma {:induction false} KeysOnce(users: seq<User>)
    requires KeyOrdered(users)
    ensures forall u :: u in users ==> multiset(UserIds(users))[u.id] == 1
  {
    if users != [] {
      var rest := users[1..];
      KeysOnce(rest);
      assert UserIds(users) == [users[0].id] + UserIds(rest);
      assert users[0].id !in UserIds(rest);
      forall u | u in users
        ensures multiset(UserIds(users))[u.id] == 1
      {
        if u != users[0] {
          assert u in rest;
        }
      }
    }
  }

  /** The fan-out that skips the actor reaches every other user exactly
      once, skips the actor, and reaches nobody outside the Users table. */
  lemma ExcludingActorReachesOthersOnce(users: seq<User>, actor: Id)
    requires KeyOrdered(users)
    ensures forall u :: u in users ==>
      multiset(OtherUserIds(users, actor))[u.id] == if u.id == actor then 0 else 1
    ensures forall x :: x !in UserIds(users) ==> multiset(OtherUserIds(users, actor))[x] == 0
  {
    KeysOnce(users);
    WhereMultiset(UserIds(users), (id: Id) => id != actor);
  }

  /** `for (const user of users) await Notification.create(...)`: one row
      per recipient, inserted in order, each under the next key. */
  method NotifyEach(db: Database, recipients: seq<Id>, kind: string, title: string,
                    text: string, related: Id)
    requires db.Valid()
    modifies db`notifications, db`nextId
    ensures db.Valid()
    ensures db.notifications
         == old(db.notifications) + Broadcast(recipients, kind, title, text, related, old(db.nextId))
    ensures db.nextId == old(db.nextId) + |recipients|
  {
    var i := 0;
    while i < |recipients|
      invariant 0 <= i <= |recipients|
      invariant db.Valid()
      invariant db.nextId == old(db.nextId) + i
      invariant db.notifications
             == old(db.notifications) + Broadcast(recipients[..i], kind, title, text, related, old(db.nextId))
    {
      var _ := db.CreateNotification(Notification(0, recipients[i], kind, title, text, related, false));
      BroadcastSnoc(recipients[..i], recipients[i], kind, title, text, related, old(db.nextId));
      assert recipients[..i + 1] == recipients[..i] + [recipients[i]];
      i := i + 1;
    }
    assert recipients[..i] == recipients;
  }

  /** `Notification.bulkCreate(rows)`: the whole batch in one insert, each
      row under the next key. */
  method NotifyAll(db: Database, recipients: seq<Id>, kind: string, title: string,
                   text: string, related: Id)
    requires db.Valid()
    modifies db`notifications, db`nextId
    ensures db.Valid()
    ensures db.notifications
         == old(db.notifications) + Broadcast(recipients, kind, title, text, related, old(db.nextId))
    ensures db.nextId == old(db.nextId) + |recipients|
  {
    var batch := Broadcast(recipients, kind, title, text, related, db.nextId);
    db.notifications := db.notifications + batch;
    db.nextId := db.nextId + |recipients|;
  }
}
