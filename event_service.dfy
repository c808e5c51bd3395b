/** EventServiceImpl over the events table. Users, participation requests and
    the stats service are collaborators passed in by the caller; categories
    are looked up in the category service the events service holds. Every
    call is one transaction: a call that fails leaves the table as it was. */
module EventManagement {
  import opened Common
  import opened Tables
  import opened Users
  import opened Locations
  import opened Categories
  import opened Events
  import opened Stats
  import opened Lifecycle
  import opened Search
  import Requests

  class EventService {
    const categories: CategoryService
    /** The `app` name recorded with every hit. */
    const app: string
    /** The events table, in id order. */
    var rows: seq<Event>
    /** The id the identity column hands out next. */
    var nextId: int

    ghost predicate Valid()
      reads this
    {
      && nextId >= 1
      && IdsAscending(rows, EventId)
      && IdsBelow(rows, EventId, nextId)
      && forall i :: 0 <= i < |rows| ==> PublishedConsistent(rows[i])
    }

    constructor (categories: CategoryService, app: string)
      ensures Valid() && rows == []
      ensures this.categories == categories && this.app == app
    {
      this.categories := categories;
      this.app := app;
      rows := [];
      nextId := 1;
    }

    /** checkAndReturnEvent: the stored event with that id, or NotFound. */
    function CheckAndReturnEvent(eventId: int): (r: Result<Event>)
      reads this
      ensures r.Ok? <==> HasId(rows, EventId, eventId)
      ensures r.Ok? ==> r.value in rows && r.value.id == eventId
      ensures r.Err? ==> r.error == NotFound
    {
      match FindById(rows, EventId, eventId)
      case Some(event) => Ok(event)
      case None => Err(NotFound)
    }

    /** create: the date rule first, then the user, then the category; on
        success a PENDING event with createdOn = now is stored under a fresh id
        and returned with 0 confirmed requests. */
    method Create(userId: int, dto: EventCreateDto, users: map<int, User>, now: int) returns (r: Result<EventDto>)
      requires Valid()
      modifies this
      ensures Valid()
      ensures dto.eventDate < now + TwoHours ==> r == Err(Conflict)
      ensures dto.eventDate >= now + TwoHours && userId !in users ==> r == Err(NotFound)
      ensures dto.eventDate >= now + TwoHours && userId in users && !HasId(categories.rows, CategoryId, dto.category) ==>
                r == Err(NotFound)
      ensures r.Ok? <==> dto.eventDate >= now + TwoHours && userId in users && HasId(categories.rows, CategoryId, dto.category)
      ensures r.Err? ==> rows == old(rows) && nextId == old(nextId)
      ensures r.Ok? ==>
                var event := NewEvent(MapEventCreateDtoToModel(dto), old(nextId), users[userId],
                                      categories.CheckAndReturnCategory(dto.category).value, GetOrSave(dto.location), now);
                && rows == old(rows) + [event]
                && nextId == old(nextId) + 1
                && CheckAndReturnEvent(old(nextId)) == Ok(event)
                && r.value == MapModelToEventDto(event, 0)
    {
      var check := ValidateEventTime(dto.eventDate, now);
      if check.Fail? {
        return Err(check.error);
      }
      if userId !in users {
        return Err(NotFound);
      }
      var user := users[userId];
      var category := categories.CheckAndReturnCategory(dto.category);
      if category.Err? {
        return Err(category.error);
      }
      var location := GetOrSave(dto.location);
      var draft := MapEventCreateDtoToModel(dto);
      var event := Event(nextId, draft.annotation, category.value, now, draft.description, draft.eventDate, user,
                         location, draft.paid, draft.participantLimit, None, draft.requestModeration, PENDING, draft.title);
      FindAfterAppend(rows, EventId, event, nextId);
      AppendKeepsIds(rows, EventId, event, nextId);
      rows := rows + [event];
      nextId := nextId + 1;
      r := Ok(MapModelToEventDto(event, 0));
    }

    /** The setters updateEventByOwner and updateEventByAdmin run in turn,
        one field at a time: the result is the partial update ApplyUpdate
        describes. */
    method PatchFields(event: Event, dto: EventUpdateDto, now: int) returns (r: Result<Event>)
      ensures r == ApplyUpdate(event, dto, categories.rows, now)
    {
      var patched := event;
      patched := patched.(annotation := OverwriteText(dto.annotation, patched.annotation));
      var category := event.category;
      if dto.category.Some? {
        var found := categories.CheckAndReturnCategory(dto.category.value);
        if found.Err? {
          return Err(found.error);
        }
        category := found.value;
        patched := patched.(category := category);
      }
      patched := patched.(description := OverwriteText(dto.description, patched.description));
      if dto.eventDate.Some? {
        var check := ValidateEventTime(dto.eventDate.value, now);
        if check.Fail? {
          return Err(check.error);
        }
        patched := patched.(eventDate := dto.eventDate.value);
      }
      patched := patched.(location := Relocate(dto.location, patched.location));
      patched := patched.(paid := Overwrite(dto.paid, patched.paid));
      patched := patched.(participantLimit := Overwrite(dto.participantLimit, patched.participantLimit));
      patched := patched.(requestModeration := Overwrite(dto.requestModeration, patched.requestModeration));
      patched := patched.(title := OverwriteText(dto.title, patched.title));
      r := Ok(patched);
    }

    /** Stores an updated event over its row and answers with its DTO. */
    method Save(event: Event, requests: seq<Requests.ParticipationRequest>) returns (r: Result<EventDto>)
      requires Valid() && HasId(rows, EventId, event.id) && PublishedConsistent(event)
      modifies this
      ensures Valid() && nextId == old(nextId)
      ensures rows == ReplaceById(old(rows), EventId, event)
      ensures CheckAndReturnEvent(event.id) == Ok(event)
      ensures forall id :: id != event.id ==> FindById(rows, EventId, id) == FindById(old(rows), EventId, id)
      ensures r == Ok(MapModelToEventDto(event, Requests.CountConfirmed(requests, event.id)))
    {
      ReplaceEventRow(rows, event, nextId);
      rows := ReplaceById(rows, EventId, event);
      r := Ok(MapModelToEventDto(event, Requests.CountConfirmed(requests, event.id)));
    }

    /** updateEventByOwner: NotFound for a missing event; otherwise the result
        of OwnerUpdate, stored over the old row when it succeeds and with
        nothing written when it fails. */
    method UpdateEventByOwner(userId: int, eventId: int, dto: EventUpdateDto, requests: seq<Requests.ParticipationRequest>,
                              now: int) returns (r: Result<EventDto>)
      requires Valid()
      modifies this
      ensures Valid() && nextId == old(nextId)
      ensures !old(HasId(rows, EventId, eventId)) ==> r == Err(NotFound) && rows == old(rows)
      ensures old(HasId(rows, EventId, eventId)) ==>
                var update := OwnerUpdate(old(CheckAndReturnEvent(eventId)).value, userId, dto, categories.rows, now);
                && (update.Err? ==> r == Err(update.error) && rows == old(rows))
                && (update.Ok? ==> rows == ReplaceById(old(rows), EventId, update.value)
                                   && r == Ok(MapModelToEventDto(update.value, Requests.CountConfirmed(requests, eventId))))
    {
      var found := CheckAndReturnEvent(eventId);
      if found.Err? {
        return Err(found.error);
      }
      var event := found.value;
      if event.initiator.id != userId {
        return Err(BadRequest);
      }
      if event.state == PUBLISHED {
        return Err(Conflict);
      }
      var patched := PatchFields(event, dto, now);
      if patched.Err? {
        return Err(patched.error);
      }
      event := patched.value;
      if dto.stateAction.Some? {
        var action := ParsePrivateAction(dto.stateAction.value);
        if action.None? {
          return Err(IllegalArgument);
        }
        if action.value == SEND_TO_REVIEW {
          event := event.(state := PENDING);
        } else if action.value == CANCEL_REVIEW {
          event := event.(state := CANCELED);
        }
      }
      UpdatesKeepPublishedConsistent(found.value, userId, dto, categories.rows, now);
      r := Save(event, requests);
    }

    /** updateEventByAdmin: NotFound for a missing event; otherwise the result
        of AdminUpdate, stored when it succeeds and with nothing written when
        it fails. */
    method UpdateEventByAdmin(eventId: int, dto: EventUpdateDto, requests: seq<Requests.ParticipationRequest>, now: int)
      returns (r: Result<EventDto>)
      requires Valid()
      modifies this
      ensures Valid() && nextId == old(nextId)
      ensures !old(HasId(rows, EventId, eventId)) ==> r == Err(NotFound) && rows == old(rows)
      ensures old(HasId(rows, EventId, eventId)) ==>
                var update := AdminUpdate(old(CheckAndReturnEvent(eventId)).value, dto, categories.rows, now);
                && (update.Err? ==> r == Err(update.error) && rows == old(rows))
                && (update.Ok? ==> rows == ReplaceById(old(rows), EventId, update.value)
                                   && r == Ok(MapModelToEventDto(update.value, Requests.CountConfirmed(requests, eventId))))
    {
      var found := CheckAndReturnEvent(eventId);
      if found.Err? {
        return Err(found.error);
      }
      var event := found.value;
      if dto.stateAction.Some? {
        var action := ParseAdminAction(dto.stateAction.value);
        if action.None? {
          return Err(IllegalArgument);
        }
        if event.state != PENDING && action.value == PUBLISH_EVENT {
          return Err(Conflict);
        }
        if event.state == PUBLISHED && action.value == REJECT_EVENT {
          return Err(Conflict);
        }
        if action.value == PUBLISH_EVENT {
          event := event.(state := PUBLISHED);
          event := event.(publishedOn := Some(now));
        } else if action.value == REJECT_EVENT {
          event := event.(state := CANCELED);
        }
      }
      var patched := PatchFields(event, dto, now);
      if patched.Err? {
        return Err(patched.error);
      }
      UpdatesKeepPublishedConsistent(found.value, found.value.initiator.id, dto, categories.rows, now);
      r := Save(patched.value, requests);
    }

    /** The events one user created, in id order. */
    function EventsOf(userId: int): (r: seq<Event>)
      reads this
      ensures forall i :: 0 <= i < |r| ==> r[i] in rows && r[i].initiator.id == userId
      ensures forall i :: 0 <= i < |rows| && rows[i].initiator.id == userId ==> rows[i] in r
      ensures multiset(r) <= multiset(rows)
      ensures Valid() ==> IdsAscending(r, EventId)
    {
      FilterKeepsAscending(rows, EventId, (event: Event) => event.initiator.id == userId);
      Filter(rows, (event: Event) => event.initiator.id == userId)
    }

    /** getEventsByOwnerId: page from / size of the user's events, each with
        its confirmed-request count (0 when it has none). An unknown user is
        not an error: the page is empty. */
    function GetEventsByOwnerId(userId: int, from: nat, size: nat, requests: seq<Requests.ParticipationRequest>)
      : (r: seq<EventShortDto>)
      requires size > 0
      reads this
      ensures |r| == |Page(EventsOf(userId), from, size)|
      ensures forall k :: 0 <= k < |r| ==>
                var event := Page(EventsOf(userId), from, size)[k];
                && event in rows && event.initiator.id == userId
                && r[k] == MapModelToEventShortDto(event, Requests.CountConfirmed(requests, event.id))
    {
      var page := Page(EventsOf(userId), from, size);
      var confirmedRequests := Requests.ConfirmedCounts(requests, Ids(page));
      seq(|page|, k requires 0 <= k < |page| =>
        MapModelToEventShortDto(page[k], Requests.GetOrDefault(confirmedRequests, page[k].id, 0)))
    }

    /** getEventByOwner: NotFound for a missing event and for a requester who
        is not its initiator; otherwise the event with its confirmed count. */
    function GetEventByOwner(userId: int, eventId: int, requests: seq<Requests.ParticipationRequest>): (r: Result<EventDto>)
      reads this
      ensures r.Ok? <==> HasId(rows, EventId, eventId) && CheckAndReturnEvent(eventId).value.initiator.id == userId
      ensures r.Err? ==> r.error == NotFound
      ensures r.Ok? ==>
                && r.value.id == eventId && r.value.initiator.id == userId
                && r.value == MapModelToEventDto(CheckAndReturnEvent(eventId).value, Requests.CountConfirmed(requests, eventId))
    {
      match CheckAndReturnEvent(eventId)
      case Err(e) => Err(e)
      case Ok(event) =>
        if event.initiator.id == userId then Ok(MapModelToEventDto(event, Requests.CountConfirmed(requests, eventId)))
        else Err(NotFound)
    }

    /** getEventsByAdmin's Specification, built from the filters and run
        as a query for page from / size. */
    method FindAllByAdminFilter(f: AdminFilter, from: nat, size: nat) returns (events: seq<Event>)
      requires size > 0
      ensures events == Page(AdminSelect(rows, f), from, size)
    {
      var specification := AdminSpecification(f);
      FilterAgrees(rows, event => SatisfiesAll(specification, event), event => AdminMatches(f, event));
      events := Page(Filter(rows, event => SatisfiesAll(specification, event)), from, size);
    }

    /** getEvents' Specification and sort, run as a query
        for page from / size. */
    method FindAllByPublicFilter(f: PublicFilter, sortKey: SortKey, now: int, from: nat, size: nat)
      returns (events: seq<Event>)
      requires size > 0
      ensures events == Page(PublicSelect(rows, f, now, sortKey), from, size)
    {
      var specification := PublicSpecification(f, now);
      FilterAgrees(rows, event => SatisfiesAll(specification, event), event => PublicMatches(f, now, event));
      var matching := Filter(rows, event => SatisfiesAll(specification, event));
      if sortKey == EVENT_DATE {
        matching := SortByDate(matching);
      }
      events := Page(matching, from, size);
    }

    /** getEventsByAdmin: a start after the end is a ValidationException; an
        empty page is NotFound; a stats failure propagates; otherwise each event
        of the page with its confirmed count and the first stats entry's hits
        (0 when the stats list is empty). */
    method GetEventsByAdmin(f: AdminFilter, from: nat, size: nat, requests: seq<Requests.ParticipationRequest>,
                            stats: StatsClient, now: int) returns (r: Result<seq<EventViewsDto>>)
      requires size > 0
      ensures f.rangeStart.Some? && f.rangeEnd.Some? && f.rangeStart.value > f.rangeEnd.value ==> r == Err(Validation)
      ensures !(f.rangeStart.Some? && f.rangeEnd.Some? && f.rangeStart.value > f.rangeEnd.value) ==>
                var page := Page(AdminSelect(rows, f), from, size);
                && (page == [] ==> r == Err(NotFound))
                && (page != [] ==>
                      var answer := stats.getStats(StatsRequest(MinCreatedOn(page), now, Uris(page), true));
                      && (answer.Failed? ==> r == Err(StatsUnavailable))
                      && (answer.Entries? ==>
                            && r.Ok? && |r.value| == |page|
                            && forall k :: 0 <= k < |page| ==>
                                 r.value[k] == MapModelToEventDtoWithViews(page[k], FirstHits(answer.entries),
                                                                           Requests.CountConfirmed(requests, page[k].id))))
    {
      if f.rangeStart.Some? && f.rangeEnd.Some? && f.rangeStart.value > f.rangeEnd.value {
        return Err(Validation);
      }
      var events := FindAllByAdminFilter(f, from, size);
      if events == [] {
        return Err(NotFound);
      }
      var uris := Uris(events);
      var start := MinCreatedOn(events);
      var response := stats.getStats(StatsRequest(start, now, uris, true));
      var confirmedRequests := Requests.ConfirmedCounts(requests, Ids(events));
      if response.Failed? {
        return Err(StatsUnavailable);
      }
      var result := DecorateWithViews(events, response.entries, confirmedRequests);
      CountsOfPage(events, requests, confirmedRequests);
      r := Ok(result);
    }

    /** getEvents: an inverted range is a BadRequest and an unknown sort a
        ValidationException; an empty page is NotFound; then the hit is
        recorded and the stats fetched, a failure of either propagating;
        otherwise each event of the page with its confirmed count and the first
        stats entry's hits (0 when the stats list is empty). */
    method GetEvents(f: PublicFilter, sort: string, from: nat, size: nat, requestUri: string, remoteAddr: string,
                     requests: seq<Requests.ParticipationRequest>, stats: StatsClient, now: int)
      returns (r: Result<seq<EventViewsShortDto>>)
      requires size > 0
      ensures f.rangeStart.Some? && f.rangeEnd.Some? && f.rangeStart.value > f.rangeEnd.value ==> r == Err(BadRequest)
      ensures !(f.rangeStart.Some? && f.rangeEnd.Some? && f.rangeStart.value > f.rangeEnd.value) && ParseSort(sort).Err? ==>
                r == Err(Validation)
      ensures !(f.rangeStart.Some? && f.rangeEnd.Some? && f.rangeStart.value > f.rangeEnd.value) && ParseSort(sort).Ok? ==>
                var page := Page(PublicSelect(rows, f, now, ParseSort(sort).value), from, size);
                && (page == [] ==> r == Err(NotFound))
                && (page != [] && !stats.save(HitDto(app, requestUri, remoteAddr, now)) ==> r == Err(StatsUnavailable))
                && (page != [] && stats.save(HitDto(app, requestUri, remoteAddr, now)) ==>
                      var answer := stats.getStats(StatsRequest(MinCreatedOn(page), now, Uris(page), true));
                      && (answer.Failed? ==> r == Err(StatsUnavailable))
                      && (answer.Entries? ==>
                            && r.Ok? && |r.value| == |page|
                            && forall k :: 0 <= k < |page| ==>
                                 r.value[k] == MapModelToEventShortDtoWithViews(page[k], FirstHits(answer.entries),
                                                                                Requests.CountConfirmed(requests, page[k].id))))
    {
      if f.rangeStart.Some? && f.rangeEnd.Some? && f.rangeStart.value > f.rangeEnd.value {
        return Err(BadRequest);
      }
      var sortKey := ParseSort(sort);
      if sortKey.Err? {
        return Err(sortKey.error);
      }
      var events := FindAllByPublicFilter(f, sortKey.value, now, from, size);
      if events == [] {
        return Err(NotFound);
      }
      var uris := Uris(events);
      var start := MinCreatedOn(events);
      var saved := stats.save(HitDto(app, requestUri, remoteAddr, now));
      if !saved {
        return Err(StatsUnavailable);
      }
      var response := stats.getStats(StatsRequest(start, now, uris, true));
      var confirmedRequests := Requests.ConfirmedCounts(requests, Ids(events));
      if response.Failed? {
        return Err(StatsUnavailable);
      }
      var result := DecorateShortWithViews(events, response.entries, confirmedRequests);
      CountsOfPage(events, requests, confirmedRequests);
      r := Ok(result);
    }

    /** getEventById: NotFound for a missing or unpublished event. The stats
        window runs from the event's creation to a second after now, for the
        request's own URI; the views are 0 for an empty answer, the first
        entry's hits otherwise, and 1 when the stats call fails, which is not
        an error. */
    function GetEventById(eventId: int, requestUri: string, requests: seq<Requests.ParticipationRequest>,
                          stats: StatsClient, now: int): (r: Result<EventViewsDto>)
      reads this
      ensures !HasId(rows, EventId, eventId) ==> r == Err(NotFound)
      ensures HasId(rows, EventId, eventId) && CheckAndReturnEvent(eventId).value.state != PUBLISHED ==> r == Err(NotFound)
      ensures r.Ok? <==> HasId(rows, EventId, eventId) && CheckAndReturnEvent(eventId).value.state == PUBLISHED
      ensures r.Ok? ==>
                var event := CheckAndReturnEvent(eventId).value;
                var answer := stats.getStats(StatsRequest(event.createdOn, now + 1, [requestUri], true));
                && WithoutViews(r.value) == MapModelToEventDto(event, Requests.CountConfirmed(requests, eventId))
                && r.value.views == (if answer.Failed? then 1 else FirstHits(answer.entries))
    {
      match CheckAndReturnEvent(eventId)
      case Err(e) => Err(e)
      case Ok(event) =>
        if event.state != PUBLISHED then Err(NotFound)
        else
          var confirmedRequests := Requests.CountConfirmed(requests, eventId);
          match stats.getStats(StatsRequest(event.createdOn, now + 1, [requestUri], true))
          case Failed => Ok(MapModelToEventDtoWithViews(event, 1, confirmedRequests))
          case Entries(statsDto) =>
            var views := if statsDto == [] then 0 else statsDto[0].hits;
            Ok(MapModelToEventDtoWithViews(event, views, confirmedRequests))
    }
  }

  /** Saving an existing event over its row keeps the table well formed, and
      only the lookup of that one id sees the change. */
  lemma ReplaceEventRow(rows: seq<Event>, event: Event, bound: int)
    requires IdsAscending(rows, EventId) && IdsBelow(rows, EventId, bound) && HasId(rows, EventId, event.id)
    requires (forall i :: 0 <= i < |rows| ==> PublishedConsistent(rows[i])) && PublishedConsistent(event)
    ensures var after := ReplaceById(rows, EventId, event);
            && IdsAscending(after, EventId) && IdsBelow(after, EventId, bound)
            && (forall i :: 0 <= i < |after| ==> PublishedConsistent(after[i]))
            && FindById(after, EventId, event.id) == Some(event)
            && forall id :: id != event.id ==> FindById(after, EventId, id) == FindById(rows, EventId, id)
  {
    var after := ReplaceById(rows, EventId, event);
    forall i | 0 <= i < |after|
      ensures PublishedConsistent(after[i])
    {
    }
    FindAfterReplace(rows, EventId, event);
    ReplaceKeepsIds(rows, EventId, event, bound);
  }

  /** getEventsByAdmin's result loop: every event of the page with the first stats
      entry's hits (0 for an empty list) and its count from the map. */
  method DecorateWithViews(events: seq<Event>, statsDto: seq<StatsEntry>, confirmedRequests: map<int, nat>)
    returns (result: seq<EventViewsDto>)
    ensures |result| == |events|
    ensures forall k :: 0 <= k < |events| ==>
              && result[k].id == events[k].id
              && result[k].views == FirstHits(statsDto)
              && result[k] == MapModelToEventDtoWithViews(events[k], FirstHits(statsDto),
                                                          Requests.GetOrDefault(confirmedRequests, events[k].id, 0))
  {
    result := [];
    for i := 0 to |events|
      invariant |result| == i
      invariant forall k :: 0 <= k < i ==>
                  result[k] == MapModelToEventDtoWithViews(events[k], FirstHits(statsDto),
                                                           Requests.GetOrDefault(confirmedRequests, events[k].id, 0))
    {
      var count := Requests.GetOrDefault(confirmedRequests, events[i].id, 0);
      if statsDto != [] {
        result := result + [MapModelToEventDtoWithViews(events[i], statsDto[0].hits, count)];
      } else {
        result := result + [MapModelToEventDtoWithViews(events[i], 0, count)];
      }
    }
  }

  /** getEvents' result loop, with the short DTO. */
  method DecorateShortWithViews(events: seq<Event>, statsDto: seq<StatsEntry>, confirmedRequests: map<int, nat>)
    returns (result: seq<EventViewsShortDto>)
    ensures |result| == |events|
    ensures forall k :: 0 <= k < |events| ==>
              && result[k].id == events[k].id
              && result[k].views == FirstHits(statsDto)
              && result[k] == MapModelToEventShortDtoWithViews(events[k], FirstHits(statsDto),
                                                               Requests.GetOrDefault(confirmedRequests, events[k].id, 0))
  {
    result := [];
    for i := 0 to |events|
      invariant |result| == i
      invariant forall k :: 0 <= k < i ==>
                  result[k] == MapModelToEventShortDtoWithViews(events[k], FirstHits(statsDto),
                                                                Requests.GetOrDefault(confirmedRequests, events[k].id, 0))
    {
      var count := Requests.GetOrDefault(confirmedRequests, events[i].id, 0);
      if statsDto != [] {
        result := result + [MapModelToEventShortDtoWithViews(events[i], statsDto[0].hits, count)];
      } else {
        result := result + [MapModelToEventShortDtoWithViews(events[i], 0, count)];
      }
    }
  }

  /** The aggregated map gives every event of the page its confirmed count. */
  lemma CountsOfPage(events: seq<Event>, requests: seq<Requests.ParticipationRequest>, confirmedRequests: map<int, nat>)
    requires confirmedRequests == Requests.ConfirmedCounts(requests, Ids(events))
    ensures forall k :: 0 <= k < |events| ==>
              Requests.GetOrDefault(confirmedRequests, events[k].id, 0) == Requests.CountConfirmed(requests, events[k].id)
  {
    forall k | 0 <= k < |events|
      ensures Requests.GetOrDefault(confirmedRequests, events[k].id, 0) == Requests.CountConfirmed(requests, events[k].id)
    {
      assert Ids(events)[k] == events[k].id;
    }
  }
}
