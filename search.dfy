/** The two event searches of EventServiceImpl as data: the filters a caller
    passes, the WHERE clauses the service conjoins from them (a JPA
    Specification is modelled as the list of its clauses), the declarative
    meaning of each search, and the ordering the public search asks for. */
module Search {
  import opened Common
  import opened Tables
  import opened Events
  import opened Stats

  /** getEventsByAdmin's optional filters (null is None). */
  datatype AdminFilter = AdminFilter(
    users: Option<seq<int>>,
    states: Option<seq<string>>,
    categories: Option<seq<int>>,
    rangeStart: Option<int>,
    rangeEnd: Option<int>)

  /** getEvents' optional filters. */
  datatype PublicFilter = PublicFilter(
    text: Option<string>,
    categories: Option<seq<int>>,
    paid: Option<bool>,
    rangeStart: Option<int>,
    rangeEnd: Option<int>,
    onlyAvailable: Option<bool>)

  /** One conjunct of a Specification<Event>. */
  datatype Clause =
    | InitiatorIn(users: seq<int>)              // initiator.id in users
    | StateNameIn(names: seq<string>)           // state as String in names
    | CategoryIn(ids: seq<int>)                 // category.id in ids
    | DateAtLeast(start: int)                   // eventDate >= start
    | DateAtMost(end: int)                      // eventDate <= end
    | TextLike(text: string)                    // lower(annotation) or lower(description) like %lower(text)%
    | PaidIs(paid: bool)                        // paid = value
    | DateAfter(after: int)                     // eventDate > after
    | DateBefore(before: int)                   // eventDate < before
    | LimitNotNegative                          // participantLimit >= 0
    | IsPublished                               // state = PUBLISHED

  /** The text condition of the public search: the lower-cased text occurs in
      the lower-cased annotation or in the lower-cased description. */
  predicate TextMatches(event: Event, text: string)
  {
    Contains(Lower(event.annotation), Lower(text)) || Contains(Lower(event.description), Lower(text))
  }

  predicate Holds(clause: Clause, event: Event)
  {
    match clause
    case InitiatorIn(users) => event.initiator.id in users
    case StateNameIn(names) => StateName(event.state) in names
    case CategoryIn(ids) => event.category.id in ids
    case DateAtLeast(start) => event.eventDate >= start
    case DateAtMost(end) => event.eventDate <= end
    case TextLike(text) => TextMatches(event, text)
    case PaidIs(paid) => event.paid == paid
    case DateAfter(after) => event.eventDate > after
    case DateBefore(before) => event.eventDate < before
    case LimitNotNegative => event.participantLimit >= 0
    case IsPublished => event.state == PUBLISHED
  }

  /** An event satisfies a Specification when it satisfies every clause;
      Specification.where(null) is the empty list, which every event satisfies. */
  predicate SatisfiesAll(spec: seq<Clause>, event: Event)
  {
    forall i :: 0 <= i < |spec| ==> Holds(spec[i], event)
  }

  /** The admin search, read as a condition on one event: every supplied filter
      holds, and both date bounds are inclusive. */
  predicate AdminMatches(f: AdminFilter, event: Event)
  {
    && (f.users.Some? ==> event.initiator.id in f.users.value)
    && (f.states.Some? ==> StateName(event.state) in f.states.value)
    && (f.categories.Some? ==> event.category.id in f.categories.value)
    && (f.rangeStart.Some? ==> f.rangeStart.value <= event.eventDate)
    && (f.rangeEnd.Some? ==> event.eventDate <= f.rangeEnd.value)
  }

  /** The lower bound of the public search: rangeStart, or now when absent. */
  function LowerBound(f: PublicFilter, now: int): int
  {
    if f.rangeStart.Some? then f.rangeStart.value else now
  }

  /** The public search, read as a condition on one event: published, dated
      strictly inside the window that starts at rangeStart (or now), and
      matching every other supplied filter. */
  predicate PublicMatches(f: PublicFilter, now: int, event: Event)
  {
    && event.state == PUBLISHED
    && LowerBound(f, now) < event.eventDate
    && (f.rangeEnd.Some? ==> event.eventDate < f.rangeEnd.value)
    && ContentMatches(f, event)
    && (f.onlyAvailable == Some(true) ==> event.participantLimit >= 0)
  }

  /** The public filters on what an event is: its text, category and price. */
  predicate ContentMatches(f: PublicFilter, event: Event)
  {
    && (f.text.Some? ==> TextMatches(event, f.text.value))
    && (f.categories.Some? ==> event.category.id in f.categories.value)
    && (f.paid.Some? ==> event.paid == f.paid.value)
  }

  lemma SatisfiesAppend(spec: seq<Clause>, clause: Clause)
    ensures forall event :: SatisfiesAll(spec + [clause], event) <==> SatisfiesAll(spec, event) && Holds(clause, event)
  {
    forall event
      ensures SatisfiesAll(spec + [clause], event) <==> SatisfiesAll(spec, event) && Holds(clause, event)
    {
      if SatisfiesAll(spec, event) && Holds(clause, event) {
        forall i | 0 <= i < |spec + [clause]|
          ensures Holds((spec + [clause])[i], event)
        {
          if i < |spec| {
            assert (spec + [clause])[i] == spec[i];
          }
        }
      }
      if SatisfiesAll(spec + [clause], event) {
        assert Holds((spec + [clause])[|spec|], event);
        forall i | 0 <= i < |spec|
          ensures Holds(spec[i], event)
        {
          assert (spec + [clause])[i] == spec[i];
        }
      }
    }
  }

  /** Specification.and: the conjunction of what there is and one more clause. */
  method And(spec: seq<Clause>, clause: Clause) returns (conjoined: seq<Clause>)
    ensures forall event :: SatisfiesAll(conjoined, event) <==> SatisfiesAll(spec, event) && Holds(clause, event)
  {
    SatisfiesAppend(spec, clause);
    conjoined := spec + [clause];
  }

  /** The Specification getEventsByAdmin builds, one clause per
      supplied filter. It selects exactly the events AdminMatches describes. */
  method AdminSpecification(f: AdminFilter) returns (spec: seq<Clause>)
    ensures forall event :: SatisfiesAll(spec, event) <==> AdminMatches(f, event)
  {
    spec := [];
    if f.users.Some? {
      spec := And(spec, InitiatorIn(f.users.value));
    }
    if f.states.Some? {
      spec := And(spec, StateNameIn(f.states.value));
    }
    if f.categories.Some? {
      spec := And(spec, CategoryIn(f.categories.value));
    }
    if f.rangeStart.Some? {
      spec := And(spec, DateAtLeast(f.rangeStart.value));
    }
    if f.rangeEnd.Some? {
      spec := And(spec, DateAtMost(f.rangeEnd.value));
    }
  }

  /** The optional text, category and paid clauses getEvents
      starts its Specification with. */
  method ContentSpecification(f: PublicFilter) returns (spec: seq<Clause>)
    ensures forall event :: SatisfiesAll(spec, event) <==> ContentMatches(f, event)
  {
    spec := [];
    if f.text.Some? {
      spec := And(spec, TextLike(f.text.value));
    }
    if f.categories.Some? {
      spec := And(spec, CategoryIn(f.categories.value));
    }
    if f.paid.Some? {
      spec := And(spec, PaidIs(f.paid.value));
    }
  }

  /** The Specification getEvents builds. The lower date bound
      and the PUBLISHED clause are always present. */
  method PublicSpecification(f: PublicFilter, now: int) returns (spec: seq<Clause>)
    ensures forall event :: SatisfiesAll(spec, event) <==> PublicMatches(f, now, event)
  {
    spec := ContentSpecification(f);
    var startDateTime := if f.rangeStart.Some? then f.rangeStart.value else now;
    spec := And(spec, DateAfter(startDateTime));
    if f.rangeEnd.Some? {
      spec := And(spec, DateBefore(f.rangeEnd.value));
    }
    if f.onlyAvailable.Some? && f.onlyAvailable.value {
      spec := And(spec, LimitNotNegative);
    }
    spec := And(spec, IsPublished);
  }

  /** The accepted values of the public search's sort parameter. */
  datatype SortKey = EVENT_DATE | VIEWS

  /** getEvents' sort parameter: EVENT_DATE or VIEWS, anything else a ValidationException. */
  function ParseSort(sort: string): (r: Result<SortKey>)
    ensures r == Ok(EVENT_DATE) <==> sort == "EVENT_DATE"
    ensures r == Ok(VIEWS) <==> sort == "VIEWS"
    ensures r.Err? <==> sort != "EVENT_DATE" && sort != "VIEWS"
    ensures r.Err? ==> r.error == Validation
  {
    if sort == "EVENT_DATE" then Ok(EVENT_DATE)
    else if sort == "VIEWS" then Ok(VIEWS)
    else Err(Validation)
  }

  predicate SortedByDate(events: seq<Event>)
  {
    forall i, j :: 0 <= i < j < |events| ==> events[i].eventDate <= events[j].eventDate
  }

  /** Insert one event in front of the first later-dated one. */
  function InsertByDate(event: Event, events: seq<Event>): (r: seq<Event>)
    requires SortedByDate(events)
    ensures SortedByDate(r)
    ensures multiset(r) == multiset(events) + multiset{event}
    ensures |r| == |events| + 1
  {
    if events == [] || event.eventDate <= events[0].eventDate then
      PrependSorted(event, events);
      [event] + events
    else
      var rest := InsertByDate(event, events[1..]);
      assert events == [events[0]] + events[1..];
      assert forall k :: 0 <= k < |events[1..]| ==> events[1..][k] == events[k + 1];
      BoundCarriesOver(events[0].eventDate, rest, events[1..], event);
      PrependSorted(events[0], rest);
      [events[0]] + rest
  }

  lemma PrependSorted(first: Event, events: seq<Event>)
    requires SortedByDate(events)
    requires forall k :: 0 <= k < |events| ==> first.eventDate <= events[k].eventDate
    ensures SortedByDate([first] + events)
  {
    var r := [first] + events;
    forall i, j | 0 <= i < j < |r|
      ensures r[i].eventDate <= r[j].eventDate
    {
      assert r[j] == events[j - 1];
      if i > 0 {
        assert r[i] == events[i - 1];
      }
    }
  }

  /** A lower bound on the dates of some events and of one more holds for any
      rearrangement of them all. */
  lemma BoundCarriesOver(low: int, s: seq<Event>, t: seq<Event>, extra: Event)
    requires multiset(s) == multiset(t) + multiset{extra}
    requires forall k :: 0 <= k < |t| ==> low <= t[k].eventDate
    requires low <= extra.eventDate
    ensures forall k :: 0 <= k < |s| ==> low <= s[k].eventDate
  {
    forall k | 0 <= k < |s|
      ensures low <= s[k].eventDate
    {
      assert s[k] in multiset(t) + multiset{extra};
      if s[k] != extra {
        assert s[k] in multiset(t);
        var j :| 0 <= j < |t| && t[j] == s[k];
      }
    }
  }

  /** Sort.by("eventDate"): ascending event date, the same events. */
  function SortByDate(events: seq<Event>): (r: seq<Event>)
    ensures SortedByDate(r)
    ensures multiset(r) == multiset(events)
    ensures |r| == |events|
  {
    if events == [] then []
    else
      assert events == [events[0]] + events[1..];
      InsertByDate(events[0], SortByDate(events[1..]))
  }

  /** The rows the admin query returns before paging, in table order. */
  function AdminSelect(rows: seq<Event>, f: AdminFilter): (r: seq<Event>)
    ensures forall i :: 0 <= i < |r| ==> r[i] in rows && AdminMatches(f, r[i])
    ensures forall i :: 0 <= i < |rows| && AdminMatches(f, rows[i]) ==> rows[i] in r
    ensures multiset(r) <= multiset(rows)
    ensures IdsAscending(rows, EventId) ==> IdsAscending(r, EventId)
  {
    FilterKeepsAscending(rows, EventId, event => AdminMatches(f, event));
    Filter(rows, event => AdminMatches(f, event))
  }

  /** Two orderings of the same rows hold the same events. */
  lemma SameMembers(a: seq<Event>, b: seq<Event>)
    requires multiset(a) == multiset(b)
    ensures forall event :: event in a <==> event in b
  {
    forall event
      ensures event in a <==> event in b
    {
      assert event in a <==> event in multiset(a);
      assert event in b <==> event in multiset(b);
    }
  }

  /** The order the query's Sort puts the matching rows in: by date for
      EVENT_DATE, table order for VIEWS. */
  function Arrange(matching: seq<Event>, sort: SortKey): (r: seq<Event>)
    ensures multiset(r) == multiset(matching)
    ensures forall event :: event in r <==> event in matching
    ensures sort == EVENT_DATE ==> SortedByDate(r)
  {
    if sort == EVENT_DATE then
      var sorted := SortByDate(matching);
      SameMembers(matching, sorted);
      sorted
    else matching
  }

  /** The rows the public query returns before paging: the matches in date
      order for EVENT_DATE and in table order for VIEWS. */
  function PublicSelect(rows: seq<Event>, f: PublicFilter, now: int, sort: SortKey): (r: seq<Event>)
    ensures forall i :: 0 <= i < |r| ==> r[i] in rows && PublicMatches(f, now, r[i])
    ensures forall i :: 0 <= i < |rows| && PublicMatches(f, now, rows[i]) ==> rows[i] in r
    ensures sort == EVENT_DATE ==> SortedByDate(r)
    ensures multiset(r) == multiset(Filter(rows, event => PublicMatches(f, now, event)))
    ensures multiset(r) <= multiset(rows)
  {
    var matching := Filter(rows, event => PublicMatches(f, now, event));
    assert forall event :: event in matching ==> event in rows && PublicMatches(f, now, event);
    Arrange(matching, sort)
  }

  /** The smallest createdOn of a non-empty page: where the stats window starts. */
  function MinCreatedOn(events: seq<Event>): (m: int)
    requires events != []
    ensures forall k :: 0 <= k < |events| ==> m <= events[k].createdOn
    ensures exists k :: 0 <= k < |events| && events[k].createdOn == m
  {
    if |events| == 1 then events[0].createdOn
    else
      var rest := MinCreatedOn(events[1..]);
      assert forall k :: 1 <= k < |events| ==> events[k] == events[1..][k - 1];
      if events[0].createdOn <= rest then events[0].createdOn else rest
  }

  /** The stats URIs of a page, one per event and in page order. */
  function Uris(events: seq<Event>): (uris: seq<string>)
    ensures |uris| == |events|
    ensures forall k :: 0 <= k < |events| ==> uris[k] == EventUri(events[k].id)
  {
    seq(|events|, k requires 0 <= k < |events| => EventUri(events[k].id))
  }

  /** The ids of a page, in page order. */
  function Ids(events: seq<Event>): (ids: seq<int>)
    ensures |ids| == |events|
    ensures forall k :: 0 <= k < |events| ==> ids[k] == events[k].id
  {
    seq(|events|, k requires 0 <= k < |events| => events[k].id)
  }

  /** Two clause lists that agree on every row select the same rows. */
  lemma {:induction false} FilterAgrees(rows: seq<Event>, p: Event -> bool, q: Event -> bool)
    requires forall i :: 0 <= i < |rows| ==> p(rows[i]) == q(rows[i])
    ensures Filter(rows, p) == Filter(rows, q)
  {
    if rows != [] {
      assert forall i :: 0 <= i < |rows[1..]| ==> rows[1..][i] == rows[i + 1];
      FilterAgrees(rows[1..], p, q);
    }
  }

  /** The lower-cased text is matched: searching for a text and for its
      lower-cased form finds the same events. */
  lemma TextMatchIgnoresCase(event: Event, text: string)
    ensures TextMatches(event, text) <==> TextMatches(event, Lower(text))
  {
    LowerIdempotent(text);
  }

  lemma LowerIdempotent(s: string)
    ensures Lower(Lower(s)) == Lower(s)
  {
  }

  /** An empty text is `LIKE '%%'`: it matches every event. */
  lemma EmptyTextMatchesAll(event: Event)
    ensures TextMatches(event, "")
  {
    assert OccursAt(Lower(event.annotation), Lower(""), 0);
  }

  /** Without rangeStart only future events are found: an event dated now or
      earlier never matches. */
  lemma PublicSearchDefaultsToFuture(f: PublicFilter, now: int, event: Event)
    requires f.rangeStart.None? && event.eventDate <= now
    ensures !PublicMatches(f, now, event)
  {
  }
}
