/**
 * The events store: an ordered list of event records and the current user's
 * RSVP dictionary, both changed in place by the store's mutators, plus the
 * read-only queries (lookup, filters and statistics) evaluated over them.
 */
module Events {
  import opened Options

  /** The parsed value of an event's date string: an instant on an ordered time
      line, or a string that does not parse (an invalid date, which compares
      false with every instant). */
  datatype EventDate = Parsed(instant: int) | Unparsable

  /** Where an event takes place; the coordinates are carried, never computed with. */
  datatype Location = Location(name: string, lat: real, lng: real)

  datatype Event = Event(
    id: int,
    title: string,
    description: string,
    date: EventDate,
    time: string,
    location: Location,
    attendees: int,
    maxAttendees: int,
    category: string,
    createdBy: string)

  /** The argument of addEvent: the fields of an event, where the caller may
      leave the id out. Its attendees and createdBy are discarded. */
  datatype EventInput = EventInput(
    id: Option<int>,
    title: string,
    description: string,
    date: EventDate,
    time: string,
    location: Location,
    attendees: int,
    maxAttendees: int,
    category: string,
    createdBy: string)

  /** The argument of updateEvent: a record of optional fields; a present field
      overrides the stored one, an absent field leaves it alone. */
  datatype EventPatch = EventPatch(
    id: Option<int>,
    title: Option<string>,
    description: Option<string>,
    date: Option<EventDate>,
    time: Option<string>,
    location: Option<Location>,
    attendees: Option<int>,
    maxAttendees: Option<int>,
    category: Option<string>,
    createdBy: Option<string>)

  const EmptyPatch := EventPatch(None, None, None, None, None, None, None, None, None, None)

  /** The creator written into every record that addEvent stores. */
  const Creator := "admin"

  /** The RSVP dictionary the store starts with. */
  const InitialRSVPs: map<int, string> := map[1 := "attending", 3 := "interested"]

  // ---------------------------------------------------------------------------
  // Records
  // ---------------------------------------------------------------------------

  /** The record addEvent builds: the timestamp id first, then the caller's
      fields (so a caller-supplied id wins), then attendees and createdBy forced. */
  function NewEvent(stamp: int, eventData: EventInput): (e: Event)
    ensures e.attendees == 0 && e.createdBy == Creator
    ensures eventData.id.Some? ==> e.id == eventData.id.value
    ensures eventData.id.None? ==> e.id == stamp
    ensures e.title == eventData.title && e.description == eventData.description
    ensures e.date == eventData.date && e.time == eventData.time
    ensures e.location == eventData.location && e.maxAttendees == eventData.maxAttendees
    ensures e.category == eventData.category
  {
    Event(eventData.id.GetOr(stamp), eventData.title, eventData.description,
          eventData.date, eventData.time, eventData.location, 0,
          eventData.maxAttendees, eventData.category, Creator)
  }

  /** The shallow merge `{ ...e, ...updates }`: the merged record carries every
      field of `e` overridden by the patch, and equals `e` exactly when the
      patch only gives values `e` already has. */
  function Merge(e: Event, updates: EventPatch): (r: Event)
    ensures Holds(Then(Full(e), updates), r)
    ensures r == e <==> Holds(updates, e)
  {
    Event(updates.id.GetOr(e.id),
          updates.title.GetOr(e.title),
          updates.description.GetOr(e.description),
          updates.date.GetOr(e.date),
          updates.time.GetOr(e.time),
          updates.location.GetOr(e.location),
          updates.attendees.GetOr(e.attendees),
          updates.maxAttendees.GetOr(e.maxAttendees),
          updates.category.GetOr(e.category),
          updates.createdBy.GetOr(e.createdBy))
  }

  /** Every field the patch gives has that value in the record. */
  predicate Holds(p: EventPatch, e: Event) {
    && (p.id.Some? ==> e.id == p.id.value)
    && (p.title.Some? ==> e.title == p.title.value)
    && (p.description.Some? ==> e.description == p.description.value)
    && (p.date.Some? ==> e.date == p.date.value)
    && (p.time.Some? ==> e.time == p.time.value)
    && (p.location.Some? ==> e.location == p.location.value)
    && (p.attendees.Some? ==> e.attendees == p.attendees.value)
    && (p.maxAttendees.Some? ==> e.maxAttendees == p.maxAttendees.value)
    && (p.category.Some? ==> e.category == p.category.value)
    && (p.createdBy.Some? ==> e.createdBy == p.createdBy.value)
  }

  /** The patch that gives every field of a record. */
  function Full(e: Event): EventPatch {
    EventPatch(Some(e.id), Some(e.title), Some(e.description), Some(e.date), Some(e.time),
               Some(e.location), Some(e.attendees), Some(e.maxAttendees), Some(e.category),
               Some(e.createdBy))
  }

  /** Two patches applied one after the other, as one patch: the later field wins. */
  function Then(first: EventPatch, second: EventPatch): EventPatch {
    EventPatch(
      if second.id.Some? then second.id else first.id,
      if second.title.Some? then second.title else first.title,
      if second.description.Some? then second.description else first.description,
      if second.date.Some? then second.date else first.date,
      if second.time.Some? then second.time else first.time,
      if second.location.Some? then second.location else first.location,
      if second.attendees.Some? then second.attendees else first.attendees,
      if second.maxAttendees.Some? then second.maxAttendees else first.maxAttendees,
      if second.category.Some? then second.category else first.category,
      if second.createdBy.Some? then second.createdBy else first.createdBy)
  }

  /** An empty patch changes nothing, and a patch of the title alone changes the title alone. */
  lemma MergeFieldwise(e: Event, title: string)
    ensures Merge(e, EmptyPatch) == e
    ensures Merge(e, EmptyPatch.(title := Some(title))) == e.(title := title)
  {
  }

  /** Merging twice with one patch is merging once; merging with two patches in
      turn is merging with their combination. */
  lemma MergeCompose(e: Event, first: EventPatch, second: EventPatch)
    ensures Merge(Merge(e, first), first) == Merge(e, first)
    ensures Merge(Merge(e, first), second) == Merge(e, Then(first, second))
  {
  }

  // ---------------------------------------------------------------------------
  // Lookup by id
  // ---------------------------------------------------------------------------

  /** Some record in the list carries that id. */
  predicate HasId(s: seq<Event>, id: int) {
    exists k | 0 <= k < |s| :: s[k].id == id
  }

  /** `findIndex(event => event.id === id)`: the position of the first record
      with that id, or -1 when no record has it. */
  function FindIndex(s: seq<Event>, id: int): (i: int)
    ensures -1 <= i < |s|
    ensures i == -1 <==> !HasId(s, id)
    ensures 0 <= i ==> s[i].id == id && forall k | 0 <= k < i :: s[k].id != id
  {
    if s == [] then -1
    else if s[0].id == id then 0
    else
      var i := FindIndex(s[1..], id);
      assert forall k | 1 <= k < |s| :: s[k] == s[1..][k - 1];
      if i == -1 then -1 else i + 1
  }

  /** getEventById, the `find` over the list: the first record with that id. */
  function GetEventById(s: seq<Event>, id: int): (r: Option<Event>)
    ensures r.None? <==> !HasId(s, id)
    ensures r.Some? ==> r.value.id == id && r.value in s
  {
    if s == [] then None
    else if s[0].id == id then Some(s[0])
    else
      assert forall k | 1 <= k < |s| :: s[k] == s[1..][k - 1];
      GetEventById(s[1..], id)
  }

  /** `find` and `findIndex` agree: getEventById returns the record at the first matching position. */
  lemma {:induction false} GetEventByIdIsFirst(s: seq<Event>, id: int)
    ensures var i := FindIndex(s, id);
            GetEventById(s, id) == if i == -1 then None else Some(s[i])
  {
    if s != [] && s[0].id != id {
      GetEventByIdIsFirst(s[1..], id);
    }
  }

  /** A record appended with an id no earlier record has is what a lookup of that id finds. */
  lemma {:induction false} AppendedIsFound(s: seq<Event>, e: Event)
    requires !HasId(s, e.id)
    ensures GetEventById(s + [e], e.id) == Some(e)
  {
    if s == [] {
    } else {
      assert (s + [e])[1..] == s[1..] + [e];
      assert s[0].id != e.id;
      assert !HasId(s[1..], e.id) by {
        forall k | 0 <= k < |s[1..]| ensures s[1..][k].id != e.id {
          assert s[1..][k] == s[k + 1];
        }
      }
      AppendedIsFound(s[1..], e);
    }
  }

  /** How many records carry that id (ids are expected, not enforced, to be unique). */
  function CountId(s: seq<Event>, id: int): (n: nat)
    ensures n <= |s|
    ensures n > 0 <==> HasId(s, id)
  {
    if s == [] then 0
    else
      assert forall k | 1 <= k < |s| :: s[k] == s[1..][k - 1];
      (if s[0].id == id then 1 else 0) + CountId(s[1..], id)
  }

  // ---------------------------------------------------------------------------
  // Update and delete, as reference definitions
  // ---------------------------------------------------------------------------

  /** The list after updateEvent: the first record with that id merged with the updates. */
  function UpdateFirst(s: seq<Event>, id: int, updates: EventPatch): (r: seq<Event>)
    ensures |r| == |s|
  {
    if s == [] then []
    else if s[0].id == id then [Merge(s[0], updates)] + s[1..]
    else [s[0]] + UpdateFirst(s[1..], id, updates)
  }

  /** updateEvent's findIndex-then-assign computes UpdateFirst. */
  lemma {:induction false} UpdateFirstAt(s: seq<Event>, id: int, updates: EventPatch)
    ensures var i := FindIndex(s, id);
            UpdateFirst(s, id, updates) == if i == -1 then s else s[i := Merge(s[i], updates)]
  {
    if s != [] && s[0].id != id {
      UpdateFirstAt(s[1..], id, updates);
      var i := FindIndex(s[1..], id);
      if i != -1 {
        assert [s[0]] + s[1..][i := Merge(s[1..][i], updates)] == s[i + 1 := Merge(s[i + 1], updates)];
      } else {
        assert [s[0]] + s[1..] == s;
      }
    }
  }

  /** On a present id only the first matching record changes: it takes the
      updated fields and keeps the others; every other position stays. */
  lemma {:induction false} UpdateChangesOnlyFirstMatch(s: seq<Event>, id: int, updates: EventPatch)
    requires HasId(s, id)
    ensures var r, i := UpdateFirst(s, id, updates), FindIndex(s, id);
            && 0 <= i < |s| && |r| == |s|
            && r[i] == Merge(s[i], updates)
            && (forall k | 0 <= k < i :: s[k].id != id)
            && (forall j | 0 <= j < |s| && j != i :: r[j] == s[j])
  {
    UpdateFirstAt(s, id, updates);
  }

  /** An update of an id no record has leaves the list exactly as it was. */
  lemma {:induction false} UpdateMissingIsNoop(s: seq<Event>, id: int, updates: EventPatch)
    requires !HasId(s, id)
    ensures UpdateFirst(s, id, updates) == s
  {
    UpdateFirstAt(s, id, updates);
  }

  /** The list after deleteEvent: the first record with that id removed. */
  function DeleteFirst(s: seq<Event>, id: int): (r: seq<Event>)
    ensures |r| == if HasId(s, id) then |s| - 1 else |s|
  {
    if s == [] then []
    else if s[0].id == id then
      assert s == [s[0]] + s[1..];
      s[1..]
    else
      assert forall k | 1 <= k < |s| :: s[k] == s[1..][k - 1];
      assert s == [s[0]] + s[1..];
      [s[0]] + DeleteFirst(s[1..], id)
  }

  /** Deleting a present id removes one of its occurrences. */
  lemma {:induction false} DeleteFirstCount(s: seq<Event>, id: int)
    ensures CountId(DeleteFirst(s, id), id) == if HasId(s, id) then CountId(s, id) - 1 else 0
  {
    if s != [] && s[0].id != id {
      DeleteFirstCount(s[1..], id);
      var r := [s[0]] + DeleteFirst(s[1..], id);
      assert r[1..] == DeleteFirst(s[1..], id);
    }
  }

  /** deleteEvent's findIndex-then-splice computes DeleteFirst, so the records
      before and after the removed one keep their relative order. */
  lemma {:induction false} DeleteFirstAt(s: seq<Event>, id: int)
    ensures var i := FindIndex(s, id);
            DeleteFirst(s, id) == if i == -1 then s else s[..i] + s[i + 1..]
  {
    if s == [] {
    } else if s[0].id == id {
      assert s[..0] + s[1..] == s[1..];
    } else {
      var rest := s[1..];
      DeleteFirstAt(rest, id);
      assert DeleteFirst(s, id) == [s[0]] + DeleteFirst(rest, id);
      if FindIndex(rest, id) == -1 {
        assert FindIndex(s, id) == -1;
        assert [s[0]] + rest == s;
      } else {
        DeleteFirstSplice(s, FindIndex(rest, id));
      }
    }
  }

  /** Splicing position i of the tail, with the head put back, splices position i + 1. */
  lemma DeleteFirstSplice(s: seq<Event>, i: nat)
    requires i + 1 < |s|
    ensures [s[0]] + (s[1..][..i] + s[1..][i + 1..]) == s[..i + 1] + s[i + 2..]
  {
    assert [s[0]] + s[1..][..i] == s[..i + 1];
    assert s[1..][i + 1..] == s[i + 2..];
  }

  /** A delete of an id no record has leaves the list exactly as it was. */
  lemma {:induction false} DeleteMissingIsNoop(s: seq<Event>, id: int)
    requires !HasId(s, id)
    ensures DeleteFirst(s, id) == s
  {
    DeleteFirstAt(s, id);
  }

  /** Deleting takes out one copy of the first matching record and no other
      record: what remains, with the removed record added back, is the list. */
  lemma DeleteFirstMultiset(s: seq<Event>, id: int)
    ensures HasId(s, id) ==> multiset(DeleteFirst(s, id)) + multiset{s[FindIndex(s, id)]} == multiset(s)
    ensures !HasId(s, id) ==> multiset(DeleteFirst(s, id)) == multiset(s)
  {
    var i := FindIndex(s, id);
    DeleteFirstAt(s, id);
    if i == -1 {
      assert DeleteFirst(s, id) == s;
    } else {
      assert DeleteFirst(s, id) == s[..i] + s[i + 1..];
      SpliceMultiset(s, i);
    }
  }

  lemma SpliceMultiset<T>(s: seq<T>, i: nat)
    requires i < |s|
    ensures multiset(s[..i] + s[i + 1..]) + multiset{s[i]} == multiset(s)
  {
    assert s == s[..i] + [s[i]] + s[i + 1..];
  }

  /** Deleting an id a second time changes nothing exactly when the list held
      that id at most once. */
  lemma DeleteTwice(s: seq<Event>, id: int)
    ensures DeleteFirst(DeleteFirst(s, id), id) == DeleteFirst(s, id) <==> CountId(s, id) <= 1
  {
    var once := DeleteFirst(s, id);
    DeleteFirstCount(s, id);
    if CountId(s, id) <= 1 {
      assert !HasId(once, id);
      DeleteMissingIsNoop(once, id);
    } else {
      assert HasId(once, id);
      assert |DeleteFirst(once, id)| == |once| - 1;
    }
  }

  // ---------------------------------------------------------------------------
  // Filters
  // ---------------------------------------------------------------------------

  /** The conditions the store's `filter` queries test a record against. */
  datatype Criterion =
    | InDateRange(startDate: int, endDate: int)
    | OnOrAfter(today: int)
    | Before(today: int)
    | InCategory(category: string)

  predicate Matches(e: Event, c: Criterion) {
    match c
    case InDateRange(startDate, endDate) =>
      e.date.Parsed? && startDate <= e.date.instant && e.date.instant <= endDate
    case OnOrAfter(today) => e.date.Parsed? && e.date.instant >= today
    case Before(today) => e.date.Parsed? && e.date.instant < today
    case InCategory(category) => e.category == category
  }

  /** `filter`: the records that meet the criterion, in list order. */
  function Select(s: seq<Event>, c: Criterion): (r: seq<Event>)
    ensures |r| <= |s|
  {
    if s == [] then []
    else (if Matches(s[0], c) then [s[0]] else []) + Select(s[1..], c)
  }

  /** A filter keeps exactly the records that meet its criterion, each no
      more often than the list holds it. */
  lemma {:induction false} SelectMembers(s: seq<Event>, c: Criterion)
    ensures multiset(Select(s, c)) <= multiset(s)
    ensures forall e :: e in Select(s, c) <==> e in s && Matches(e, c)
  {
    if s != [] {
      assert s == [s[0]] + s[1..];
      SelectMembers(s[1..], c);
    }
  }

  /** Filtering distributes over concatenation, so it keeps the list order. */
  lemma {:induction false} SelectAppend(a: seq<Event>, b: seq<Event>, c: Criterion)
    ensures Select(a + b, c) == Select(a, c) + Select(b, c)
  {
    if a == [] {
      assert a + b == b;
    } else {
      var head := if Matches(a[0], c) then [a[0]] else [];
      var tail := a[1..];
      assert (a + b)[0] == a[0];
      assert (a + b)[1..] == tail + b;
      SelectAppend(tail, b, c);
      calc {
        Select(a + b, c);
        head + Select(tail + b, c);
        head + (Select(tail, c) + Select(b, c));
        (head + Select(tail, c)) + Select(b, c);
        Select(a, c) + Select(b, c);
      }
    }
  }

  /** Filtering keeps a list whose every record matches exactly as it is. */
  lemma {:induction false} SelectAll(s: seq<Event>, c: Criterion)
    requires forall k | 0 <= k < |s| :: Matches(s[k], c)
    ensures Select(s, c) == s
  {
    if s != [] {
      SelectAll(s[1..], c);
    }
  }

  function GetEventsByDateRange(events: seq<Event>, startDate: int, endDate: int): (r: seq<Event>)
    ensures forall e :: e in r <==>
      e in events && e.date.Parsed? && startDate <= e.date.instant <= endDate
  {
    SelectMembers(events, InDateRange(startDate, endDate));
    Select(events, InDateRange(startDate, endDate))
  }

  function GetUpcomingEvents(events: seq<Event>, today: int): (r: seq<Event>)
    ensures forall e :: e in r <==> e in events && e.date.Parsed? && e.date.instant >= today
  {
    SelectMembers(events, OnOrAfter(today));
    Select(events, OnOrAfter(today))
  }

  function GetPastEvents(events: seq<Event>, today: int): (r: seq<Event>)
    ensures forall e :: e in r <==> e in events && e.date.Parsed? && e.date.instant < today
  {
    SelectMembers(events, Before(today));
    Select(events, Before(today))
  }

  function GetEventsByCategory(events: seq<Event>, category: string): (r: seq<Event>)
    ensures forall e :: e in r <==> e in events && e.category == category
  {
    SelectMembers(events, InCategory(category));
    Select(events, InCategory(category))
  }

  predicate AllDatesParsed(s: seq<Event>) {
    forall k | 0 <= k < |s| :: s[k].date.Parsed?
  }

  /** Two criteria that every record meets exactly one of split the list:
      their selections together hold each record exactly once. */
  lemma {:induction false} SelectComplement(s: seq<Event>, c: Criterion, d: Criterion)
    requires forall k | 0 <= k < |s| :: Matches(s[k], c) != Matches(s[k], d)
    ensures multiset(Select(s, c)) + multiset(Select(s, d)) == multiset(s)
  {
    if s != [] {
      var rest := s[1..];
      forall k | 0 <= k < |rest|
        ensures Matches(rest[k], c) != Matches(rest[k], d)
      {
        assert rest[k] == s[k + 1];
      }
      SelectComplement(rest, c, d);
      assert multiset(s) == multiset{s[0]} + multiset(rest) by {
        assert s == [s[0]] + rest;
      }
    }
  }

  /** For one instant, upcoming and past split the list: together they hold
      every record exactly once, and they share none. */
  lemma UpcomingPastPartition(events: seq<Event>, today: int)
    requires AllDatesParsed(events)
    ensures multiset(GetUpcomingEvents(events, today)) + multiset(GetPastEvents(events, today))
            == multiset(events)
    ensures |GetUpcomingEvents(events, today)| + |GetPastEvents(events, today)| == |events|
    ensures forall e :: !(e in GetUpcomingEvents(events, today) && e in GetPastEvents(events, today))
  {
    SelectComplement(events, OnOrAfter(today), Before(today));
    assert |multiset(events)| == |events|;
  }

  /** The two counts add up to the list length only when every date parses: a
      record with an unparsable date is neither upcoming nor past. */
  lemma {:induction false} PartitionNeedsParsedDates(events: seq<Event>, today: int)
    ensures |GetUpcomingEvents(events, today)| + |GetPastEvents(events, today)| <= |events|
    ensures |GetUpcomingEvents(events, today)| + |GetPastEvents(events, today)| == |events|
            <==> AllDatesParsed(events)
  {
    if events != [] {
      PartitionNeedsParsedDates(events[1..], today);
      assert AllDatesParsed(events) <==> events[0].date.Parsed? && AllDatesParsed(events[1..]) by {
        assert forall k | 1 <= k < |events| :: events[k] == events[1..][k - 1];
      }
    }
  }

  // ---------------------------------------------------------------------------
  // RSVPs
  // ---------------------------------------------------------------------------

  /** `userRSVPs[eventId] || null`: the stored status, absent when there is no
      entry or the entry is the empty (falsy) string. */
  function GetUserRSVP(userRSVPs: map<int, string>, eventId: int): (r: Option<string>)
    ensures r.Some? <==> eventId in userRSVPs && userRSVPs[eventId] != ""
    ensures r.Some? ==> r.value == userRSVPs[eventId]
  {
    if eventId in userRSVPs && userRSVPs[eventId] != "" then Some(userRSVPs[eventId]) else None
  }

  /** After an RSVP the entry reads back as the status written (unless it is
      falsy), and every other entry reads as before. */
  lemma RsvpThenGet(userRSVPs: map<int, string>, eventId: int, status: string, other: int)
    requires other != eventId
    ensures GetUserRSVP(userRSVPs[eventId := status], eventId) == if status == "" then None else Some(status)
    ensures GetUserRSVP(userRSVPs[eventId := status], other) == GetUserRSVP(userRSVPs, other)
  {
  }

  // ---------------------------------------------------------------------------
  // Statistics
  // ---------------------------------------------------------------------------

  datatype EventStats = EventStats(total: int, upcoming: int, past: int, totalAttendees: int)

  /** The total of the attendees fields, as the reference sum. */
  function SumAttendees(s: seq<Event>): int {
    if s == [] then 0 else s[0].attendees + SumAttendees(s[1..])
  }

  lemma {:induction false} SumAttendeesAppend(a: seq<Event>, b: seq<Event>)
    ensures SumAttendees(a + b) == SumAttendees(a) + SumAttendees(b)
  {
    if a != [] {
      assert (a + b)[0] == a[0];
      assert (a + b)[1..] == a[1..] + b;
      SumAttendeesAppend(a[1..], b);
    } else {
      assert a + b == b;
    }
  }

  /** `reduce((sum, event) => sum + event.attendees, acc)`: a left fold, which
      ends at the start value plus the attendee sum. */
  function ReduceAttendees(acc: int, s: seq<Event>): (r: int)
    ensures r == acc + SumAttendees(s)
    decreases s
  {
    if s == [] then acc else ReduceAttendees(acc + s[0].attendees, s[1..])
  }

  /** getEventStats. The source reads the clock once for the upcoming count and
      again for the past count: the two instants are separate parameters. */
  function GetEventStats(events: seq<Event>, todayUpcoming: int, todayPast: int): (r: EventStats)
    ensures r.total == |events|
    ensures r.totalAttendees == SumAttendees(events)
    ensures r.upcoming == |GetUpcomingEvents(events, todayUpcoming)| <= r.total
    ensures r.past == |GetPastEvents(events, todayPast)| <= r.total
  {
    EventStats(|events|,
               |GetUpcomingEvents(events, todayUpcoming)|,
               |GetPastEvents(events, todayPast)|,
               ReduceAttendees(0, events))
  }

  /** With one instant for both counts and every date parsed, upcoming and
      past add up to the total. */
  lemma StatsAgreeWithList(events: seq<Event>, today: int)
    requires AllDatesParsed(events)
    ensures var stats := GetEventStats(events, today, today);
            stats.upcoming + stats.past == stats.total
  {
    UpcomingPastPartition(events, today);
  }

  /** Adding an event raises the total by one and leaves the attendee sum as it was. */
  lemma AddEventStats(events: seq<Event>, stamp: int, eventData: EventInput, todayUpcoming: int, todayPast: int)
    ensures var before, after := GetEventStats(events, todayUpcoming, todayPast),
                                 GetEventStats(events + [NewEvent(stamp, eventData)], todayUpcoming, todayPast);
            after.total == before.total + 1 && after.totalAttendees == before.totalAttendees
  {
    SumAttendeesAppend(events, [NewEvent(stamp, eventData)]);
  }

  /** Deleting a present id lowers the total by one and the attendee sum by
      the removed record's attendees. */
  lemma DeleteEventStats(events: seq<Event>, id: int, todayUpcoming: int, todayPast: int)
    requires HasId(events, id)
    ensures var before, after := GetEventStats(events, todayUpcoming, todayPast),
                                 GetEventStats(DeleteFirst(events, id), todayUpcoming, todayPast);
            && after.total == before.total - 1
            && after.totalAttendees == before.totalAttendees - events[FindIndex(events, id)].attendees
  {
    var i := FindIndex(events, id);
    DeleteFirstAt(events, id);
    SumAttendeesRemoveAt(events, i);
  }

  /** Removing the record at one position takes its attendees out of the sum. */
  lemma SumAttendeesRemoveAt(s: seq<Event>, i: nat)
    requires i < |s|
    ensures SumAttendees(s[..i] + s[i + 1..]) == SumAttendees(s) - s[i].attendees
  {
    SumAttendeesAppend(s[..i], s[i + 1..]);
    SumAttendeesAppend(s[..i], s[i..]);
    assert s[..i] + s[i..] == s;
    assert s[i..] == [s[i]] + s[i + 1..];
  }

  // ---------------------------------------------------------------------------
  // The store
  // ---------------------------------------------------------------------------

  class EventsStore {
    var events: seq<Event>
    var userRSVPs: map<int, string>

    /** The store with its seed records and its two seed RSVPs. */
    constructor(seed: seq<Event>)
      ensures events == seed && userRSVPs == InitialRSVPs
    {
      events := seed;
      userRSVPs := InitialRSVPs;
    }

    /** addEvent: `stamp` stands for the clock reading used as the default id. */
    method AddEvent(stamp: int, eventData: EventInput) returns (newEvent: Event)
      modifies this
      ensures newEvent == NewEvent(stamp, eventData)
      ensures events == old(events) + [newEvent]
      ensures userRSVPs == old(userRSVPs)
    {
      newEvent := NewEvent(stamp, eventData);
      events := events + [newEvent];
    }

    method UpdateEvent(id: int, updates: EventPatch)
      modifies this
      ensures events == UpdateFirst(old(events), id, updates)
      ensures userRSVPs == old(userRSVPs)
    {
      var index := FindIndex(events, id);
      if index != -1 {
        events := events[index := Merge(events[index], updates)];
      }
      UpdateFirstAt(old(events), id, updates);
    }

    method DeleteEvent(id: int)
      modifies this
      ensures events == DeleteFirst(old(events), id)
      ensures userRSVPs == old(userRSVPs)
    {
      var index := FindIndex(events, id);
      if index != -1 {
        events := events[..index] + events[index + 1..];
      }
      DeleteFirstAt(old(events), id);
    }

    /** rsvpToEvent: written whether or not an event has that id. */
    method RsvpToEvent(eventId: int, status: string)
      modifies this
      ensures userRSVPs == old(userRSVPs)[eventId := status]
      ensures events == old(events)
    {
      userRSVPs := userRSVPs[eventId := status];
    }
  }
}
