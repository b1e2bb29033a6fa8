/** Clinic events: posting an event (which notifies every user, the
    poster included), the filtered and date-ordered listing with each
    event's count of interested users, and the per-month statistics. */
module Events {
  import opened Base
  import opened Store
  import opened Seqs
  import opened Text
  import opened Ordering
  import opened Notify
  import opened Monthly

  // ---------------------------------------------------------------------
  // createEvent

  /** The request body of createEvent with the uploaded file's path;
      "" and None are absent. */
  datatype EventForm = EventForm(title: string, date: Option<Date>, time: string,
                                 description: string, location: string, status: string,
                                 image: string)

  function NewEventText(title: string): string {
    "A new event titled \"" + title + "\" has been posted!"
  }

  /** The batch of "new_event" notices createEvent inserts for event `e`,
      keyed from `first` on. */
  function EventNotices(users: seq<User>, e: Event, first: Id): seq<Notification> {
    Broadcast(UserIds(users), "new_event", "New Event Posted 🎉", NewEventText(e.title), e.id, first)
  }

  /** Every user gets exactly one notice about the event, the poster
      included, and nobody else gets one; with no users there are none. */
  lemma EventNoticesReachEveryoneOnce(users: seq<User>, e: Event, first: Id)
    requires KeyOrdered(users)
    ensures forall u :: u in users ==> multiset(Addressees(EventNotices(users, e, first)))[u.id] == 1
    ensures forall x :: x !in UserIds(users) ==> multiset(Addressees(EventNotices(users, e, first)))[x] == 0
    ensures forall n :: n in EventNotices(users, e, first) ==>
      n.kind == "new_event" && n.relatedId == e.id && !n.isRead
    ensures users == [] ==> EventNotices(users, e, first) == []
  {
    KeysOnce(users);
  }

  /** 400 and nothing stored when title, date or time is missing.
      Otherwise the event is stored, with status "upcoming" when none is
      given, and then one "new_event" notice per user is inserted in one
      batch, each pointing at the new event. */
  method CreateEvent(db: Database, f: EventForm) returns (r: Reply<Event>)
    requires db.Valid()
    modifies db`events, db`notifications, db`nextId
    ensures db.Valid()
    ensures f.title == "" || f.date.None? || f.time == "" ==>
      r == Fail(400, "Title, date, and time are required.") && unchanged(db)
    ensures f.title != "" && f.date.Some? && f.time != "" ==>
      var e := Event(old(db.nextId), f.title, f.date.value, f.time, f.description, f.location,
                     if f.status == "" then "upcoming" else f.status, f.image);
      && r == Reply(201, "Event created successfully and notifications sent!", Some(e))
      && db.events == old(db.events) + [e]
      && db.notifications == old(db.notifications) + EventNotices(db.users, e, e.id + 1)
      && db.nextId == old(db.nextId) + 1 + |db.users|
  {
    if f.title == "" || f.date.None? || f.time == "" {
      return Fail(400, "Title, date, and time are required.");
    }
    var status := if f.status == "" then "upcoming" else f.status;
    var e := db.CreateEvent(Event(0, f.title, f.date.value, f.time, f.description, f.location,
                                  status, f.image));
    assert db.Valid();
    NotifyAll(db, UserIds(db.users), "new_event", "New Event Posted 🎉", NewEventText(e.title), e.id);
    return Reply(201, "Event created successfully and notifications sent!", Some(e));
  }

  // ---------------------------------------------------------------------
  // getAllEvents

  /** `str.charAt(0).toUpperCase() + str.slice(1)`. */
  function Capitalize(s: string): (r: string)
    ensures |r| == |s|
    ensures s != "" ==> r[0] == UpperChar(s[0])
    ensures forall i :: 1 <= i < |s| ==> r[i] == s[i]
  {
    if s == [] then [] else [UpperChar(s[0])] + s[1..]
  }

  /** Capitalizing twice is capitalizing once, and changes nothing but the
      case of the first letter. */
  lemma CapitalizeIdempotent(s: string)
    ensures Capitalize(Capitalize(s)) == Capitalize(s)
    ensures Lower(Capitalize(s)) == Lower(s)
  {
    if s != [] {
      assert Lower(Capitalize(s))[0] == Lower(s)[0];
    }
  }

  /** The query string of getAllEvents; "" and None are absent. */
  datatype EventQuery = EventQuery(keyword: string, date: Option<Date>, status: string)

  /** The WHERE clause: the keyword in title, description or location when
      given; the exact date when given; the lower-cased status unless it
      is absent or "all" in any case. */
  predicate Matches(e: Event, q: EventQuery) {
    && (q.keyword == "" ||
        LikeQuery(e.title, q.keyword) || LikeQuery(e.description, q.keyword) ||
        LikeQuery(e.location, q.keyword))
    && (q.date.None? || e.date == q.date.value)
    && (q.status == "" || Lower(q.status) == "all" || e.status == Lower(q.status))
  }

  /** ORDER BY date ASC. */
  predicate ByDate(a: Event, b: Event) {
    DateLe(a.date, b.date)
  }

  lemma ByDateIsPreorder()
    ensures TotalPreorder(ByDate)
  {
  }

  /** EventInterest.count({ where: { event_id, status: "enabled" } }). */
  function Interested(interests: seq<Interest>, eventId: Id): nat {
    Count(interests, (i: Interest) => i.eventId == eventId && i.status == "enabled")
  }

  /** One entry of the listing; the date stays a date. */
  datatype EventView = EventView(title: string, date: Date, time: string, description: string,
                                 location: string, interested: nat, status: string, image: string)

  function View(interests: seq<Interest>, e: Event): EventView {
    EventView(e.title, e.date, e.time, e.description, e.location, Interested(interests, e.id),
              Capitalize(e.status), e.image)
  }

  /** Exactly the matching events, earliest date first, each with its
      count of enabled interests and its status capitalized. */
  function GetAllEvents(events: seq<Event>, interests: seq<Interest>, q: EventQuery)
    : (r: seq<EventView>)
    ensures |r| == |Where(events, (e: Event) => Matches(e, q))|
    ensures exists order: seq<Event> ::
      && multiset(order) == multiset(Where(events, (e: Event) => Matches(e, q)))
      && Sorted(order, ByDate) && |order| == |r|
      && forall k :: 0 <= k < |r| ==> r[k] == View(interests, order[k])
    ensures forall i, j :: 0 <= i < j < |r| ==> DateLe(r[i].date, r[j].date)
  {
    var selected := Where(events, (e: Event) => Matches(e, q));
    ByDateIsPreorder();
    var order := SortBy(selected, ByDate);
    assert |order| == |multiset(order)|;
    seq(|order|, k requires 0 <= k < |order| => View(interests, order[k]))
  }

  /** Without any filter, or with status "all" in any case, every event is
      listed. */
  lemma NoFilterListsAll(events: seq<Event>, q: EventQuery)
    requires q.keyword == "" && q.date.None? && (q.status == "" || Lower(q.status) == "all")
    ensures Where(events, (e: Event) => Matches(e, q)) == events
  {
    WhereAll(events, (e: Event) => Matches(e, q));
  }

  /** The status filter ignores the case of the query. */
  lemma StatusFilterIgnoresCase(e: Event, q: EventQuery)
    ensures Matches(e, q) == Matches(e, q.(status := Lower(q.status)))
  {
    LowerTwice(q.status);
    assert |Lower(q.status)| == |q.status|;
  }

  /** Only an enabled interest in the event raises its count, and by one. */
  lemma {:induction false} InterestCounting(interests: seq<Interest>, i: Interest, eventId: Id)
    ensures Interested(interests + [i], eventId)
         == Interested(interests, eventId) + (if i.eventId == eventId && i.status == "enabled" then 1 else 0)
  {
    WhereAppend(interests, [i], (x: Interest) => x.eventId == eventId && x.status == "enabled");
    assert Where([i], (x: Interest) => x.eventId == eventId && x.status == "enabled")
        == if i.eventId == eventId && i.status == "enabled" then [i] else [];
  }

  // ---------------------------------------------------------------------
  // getMonthlyEvents

  /** The date of each event, in table order. */
  function EventDates(events: seq<Event>): seq<Date> {
    DatesOf(events, (e: Event) => e.date)
  }

  /** 400 without a year; otherwise twelve counts, entry i holding the
      events dated in month i + 1 of that year. */
  function GetMonthlyEvents(events: seq<Event>, year: Option<nat>): (r: Reply<seq<nat>>)
    ensures year.None? ==> r == Fail(400, "Year is required (e.g., ?year=2025)")
    ensures year.Some? ==>
      && r.status == 200 && r.body.Some? && |r.body.value| == 12
      && forall i :: 0 <= i < 12 ==> r.body.value[i] == InMonth(EventDates(events), year.value, i + 1)
  {
    match MonthlyReply(EventDates(events), year)
    case None => Fail(400, "Year is required (e.g., ?year=2025)")
    case Some(counts) => Reply(200, "", Some(counts))
  }
}
