/** The event lifecycle rules of EventServiceImpl as functions on one event:
    the two-hour date rule, the partial-update rule shared by the owner and
    admin paths, and the state transitions each path allows. The service
    methods in EventManagement apply them field by field and are proved equal
    to them. */
module Lifecycle {
  import opened Common
  import opened Tables
  import opened Users
  import opened Locations
  import opened Categories
  import opened Events

  datatype PrivateAction = SEND_TO_REVIEW | CANCEL_REVIEW

  datatype AdminAction = PUBLISH_EVENT | REJECT_EVENT

  function PrivateActionName(action: PrivateAction): string
  {
    match action
    case SEND_TO_REVIEW => "SEND_TO_REVIEW"
    case CANCEL_REVIEW => "CANCEL_REVIEW"
  }

  function AdminActionName(action: AdminAction): string
  {
    match action
    case PUBLISH_EVENT => "PUBLISH_EVENT"
    case REJECT_EVENT => "REJECT_EVENT"
  }

  /** PrivateAction.valueOf: the constant with that name, or nothing (the
      source then throws IllegalArgumentException). */
  function ParsePrivateAction(name: string): (r: Option<PrivateAction>)
    ensures r.Some? ==> PrivateActionName(r.value) == name
    ensures r.None? ==> forall a: PrivateAction :: PrivateActionName(a) != name
  {
    if name == "SEND_TO_REVIEW" then Some(SEND_TO_REVIEW)
    else if name == "CANCEL_REVIEW" then Some(CANCEL_REVIEW)
    else None
  }

  /** AdminAction.valueOf. */
  function ParseAdminAction(name: string): (r: Option<AdminAction>)
    ensures r.Some? ==> AdminActionName(r.value) == name
    ensures r.None? ==> forall a: AdminAction :: AdminActionName(a) != name
  {
    if name == "PUBLISH_EVENT" then Some(PUBLISH_EVENT)
    else if name == "REJECT_EVENT" then Some(REJECT_EVENT)
    else None
  }

  /** The body of EventUserUpdateDto and of EventAdminUpdateDto: every field is
      optional (null when absent). */
  datatype EventUpdateDto = EventUpdateDto(
    annotation: Option<string>,
    category: Option<int>,
    description: Option<string>,
    eventDate: Option<int>,
    location: Option<LocationDto>,
    paid: Option<bool>,
    participantLimit: Option<int>,
    requestModeration: Option<bool>,
    title: Option<string>,
    stateAction: Option<string>)

  const TwoHours: int := 2 * SecondsPerHour

  /** validateEventTime: a date before now + 2h is a conflict; exactly
      now + 2h is accepted. */
  function ValidateEventTime(eventTime: int, now: int): (r: Outcome)
    ensures r == Pass <==> eventTime >= now + TwoHours
    ensures r != Pass ==> r == Fail(Conflict)
  {
    if eventTime < now + TwoHours then Fail(Conflict) else Pass
  }

  /** A text field of an update is applied only when non-null and non-blank. */
  predicate Supplied(text: Option<string>)
  {
    text.Some? && !IsBlank(text.value)
  }

  /** The partial-update rule for a text field: the stored value is replaced
      exactly when a non-blank value is supplied. */
  predicate TextRule(before: string, supplied: Option<string>, after: string)
  {
    if Supplied(supplied) then after == supplied.value else after == before
  }

  /** The partial-update rule for any other field: replaced exactly when supplied. */
  predicate ValueRule<T(==)>(before: T, supplied: Option<T>, after: T)
  {
    if supplied.Some? then after == supplied.value else after == before
  }

  /** What no update path writes: identity, creation, initiator. */
  predicate SameIdentity(before: Event, after: Event)
  {
    after.id == before.id && after.createdOn == before.createdOn && after.initiator == before.initiator
  }

  /** The entity create stores: the draft's fields plus what the service sets. */
  function NewEvent(draft: EventDraft, id: int, initiator: User, category: Category, location: Location, now: int): (event: Event)
    ensures event.id == id && event.initiator == initiator && event.category == category && event.location == location
    ensures event.state == PENDING && event.createdOn == now && event.publishedOn == None
    ensures PublishedConsistent(event)
    ensures MapEventCreateDtoToModel(EventCreateDto(event.annotation, category.id, event.description, event.eventDate,
                                                    Locations.MapModelToDto(location), event.paid, event.participantLimit,
                                                    event.requestModeration, event.title)) == draft
  {
    Event(id, draft.annotation, category, now, draft.description, draft.eventDate, initiator, location,
          draft.paid, draft.participantLimit, None, draft.requestModeration, PENDING, draft.title)
  }

  /** The field writes of an update once the category is resolved: each field
      follows its partial-update rule and nothing else moves. */
  function Patch(event: Event, dto: EventUpdateDto, category: Category): (patched: Event)
    ensures SameIdentity(event, patched)
    ensures patched.state == event.state && patched.publishedOn == event.publishedOn
    ensures patched.category == category
    ensures TextRule(event.annotation, dto.annotation, patched.annotation)
    ensures TextRule(event.description, dto.description, patched.description)
    ensures TextRule(event.title, dto.title, patched.title)
    ensures ValueRule(event.eventDate, dto.eventDate, patched.eventDate)
    ensures ValueRule(Locations.MapModelToDto(event.location), dto.location, Locations.MapModelToDto(patched.location))
    ensures ValueRule(event.paid, dto.paid, patched.paid)
    ensures ValueRule(event.participantLimit, dto.participantLimit, patched.participantLimit)
    ensures ValueRule(event.requestModeration, dto.requestModeration, patched.requestModeration)
  {
    event.(
      annotation := OverwriteText(dto.annotation, event.annotation),
      category := category,
      description := OverwriteText(dto.description, event.description),
      eventDate := Overwrite(dto.eventDate, event.eventDate),
      location := Relocate(dto.location, event.location),
      paid := Overwrite(dto.paid, event.paid),
      participantLimit := Overwrite(dto.participantLimit, event.participantLimit),
      requestModeration := Overwrite(dto.requestModeration, event.requestModeration),
      title := OverwriteText(dto.title, event.title))
  }

  /** The location setter: the stored location for the supplied coordinates. */
  function Relocate(supplied: Option<LocationDto>, current: Location): Location
  {
    if supplied.Some? then GetOrSave(supplied.value) else current
  }

  /** A setter guarded by `value != null`. */
  function Overwrite<T>(supplied: Option<T>, current: T): T
  {
    if supplied.Some? then supplied.value else current
  }

  /** A setter guarded by `value != null && !value.isBlank()`. */
  function OverwriteText(supplied: Option<string>, current: string): string
  {
    if Supplied(supplied) then supplied.value else current
  }

  /** The field updates updateEventByOwner and updateEventByAdmin share. A category
      id that is not stored fails NotFound before the date is looked at; a
      supplied date failing the two-hour rule fails Conflict; otherwise the
      fields are patched, the category being the stored one with that id. */
  function ApplyUpdate(event: Event, dto: EventUpdateDto, categories: seq<Category>, now: int): (r: Result<Event>)
    ensures dto.category.Some? && !HasId(categories, CategoryId, dto.category.value) ==> r == Err(NotFound)
    ensures ((dto.category.None? || HasId(categories, CategoryId, dto.category.value))
             && dto.eventDate.Some? && dto.eventDate.value < now + TwoHours) ==> r == Err(Conflict)
    ensures r.Ok? <==> (dto.category.None? || HasId(categories, CategoryId, dto.category.value))
                       && (dto.eventDate.None? || dto.eventDate.value >= now + TwoHours)
    ensures r.Ok? && dto.category.None? ==> r == Ok(Patch(event, dto, event.category))
    ensures r.Ok? && dto.category.Some? ==>
              && r.value.category in categories && r.value.category.id == dto.category.value
              && r == Ok(Patch(event, dto, r.value.category))
  {
    var category := if dto.category.Some? then FindById(categories, CategoryId, dto.category.value) else Some(event.category);
    if category.None? then Err(NotFound)
    else if dto.eventDate.Some? && ValidateEventTime(dto.eventDate.value, now).Fail? then Err(Conflict)
    else Ok(Patch(event, dto, category.value))
  }

  /** updateEventByOwner once the event is loaded: BadRequest for anyone but the
      initiator, Conflict on a published event, then the field updates, then
      the owner's state action. publishedOn is never written. */
  function OwnerUpdate(event: Event, userId: int, dto: EventUpdateDto, categories: seq<Category>, now: int): (r: Result<Event>)
    ensures event.initiator.id != userId ==> r == Err(BadRequest)
    ensures event.initiator.id == userId && event.state == PUBLISHED ==> r == Err(Conflict)
    ensures var u := ApplyUpdate(event, dto, categories, now);
            (event.initiator.id == userId && event.state != PUBLISHED && u.Err? ==> r == u)
    ensures var u := ApplyUpdate(event, dto, categories, now);
            (event.initiator.id == userId && event.state != PUBLISHED && u.Ok?
             && dto.stateAction.Some? && ParsePrivateAction(dto.stateAction.value).None?) ==> r == Err(IllegalArgument)
    ensures r.Ok? <==> && event.initiator.id == userId && event.state != PUBLISHED
                       && ApplyUpdate(event, dto, categories, now).Ok?
                       && (dto.stateAction.None? || ParsePrivateAction(dto.stateAction.value).Some?)
    ensures var u := ApplyUpdate(event, dto, categories, now);
            r.Ok? ==> u.Ok? && r.value == u.value.(state := r.value.state)
    ensures r.Ok? ==> SameIdentity(event, r.value) && r.value.publishedOn == event.publishedOn
    ensures r.Ok? ==> r.value.state == match dto.stateAction
                                       case None => event.state
                                       case Some(name) => if name == "SEND_TO_REVIEW" then PENDING else CANCELED
  {
    if event.initiator.id != userId then Err(BadRequest)
    else if event.state == PUBLISHED then Err(Conflict)
    else match ApplyUpdate(event, dto, categories, now)
      case Err(e) => Err(e)
      case Ok(patched) =>
        if dto.stateAction.None? then Ok(patched)
        else match ParsePrivateAction(dto.stateAction.value)
          case None => Err(IllegalArgument)
          case Some(SEND_TO_REVIEW) => Ok(patched.(state := PENDING))
          case Some(CANCEL_REVIEW) => Ok(patched.(state := CANCELED))
  }

  /** updateEventByAdmin's state action, applied before any field.
      PUBLISH_EVENT needs PENDING and stamps publishedOn; REJECT_EVENT needs a
      state other than PUBLISHED. */
  function AdminTransition(event: Event, stateAction: Option<string>, now: int): (r: Result<Event>)
    ensures stateAction.None? ==> r == Ok(event)
    ensures stateAction == Some("PUBLISH_EVENT") ==>
              r == if event.state == PENDING then Ok(event.(state := PUBLISHED, publishedOn := Some(now))) else Err(Conflict)
    ensures stateAction == Some("REJECT_EVENT") ==>
              r == if event.state != PUBLISHED then Ok(event.(state := CANCELED)) else Err(Conflict)
    ensures stateAction.Some? && ParseAdminAction(stateAction.value).None? ==> r == Err(IllegalArgument)
  {
    if stateAction.None? then Ok(event)
    else match ParseAdminAction(stateAction.value)
      case None => Err(IllegalArgument)
      case Some(action) =>
        if event.state != PENDING && action == PUBLISH_EVENT then Err(Conflict)
        else if event.state == PUBLISHED && action == REJECT_EVENT then Err(Conflict)
        else if action == PUBLISH_EVENT then Ok(event.(state := PUBLISHED, publishedOn := Some(now)))
        else Ok(event.(state := CANCELED))
  }

  /** updateEventByAdmin once the event is loaded: the transition, then the
      field updates. */
  function AdminUpdate(event: Event, dto: EventUpdateDto, categories: seq<Category>, now: int): (r: Result<Event>)
    ensures AdminTransition(event, dto.stateAction, now).Err? ==> r == AdminTransition(event, dto.stateAction, now)
    ensures var t := AdminTransition(event, dto.stateAction, now); t.Ok? ==> r == ApplyUpdate(t.value, dto, categories, now)
    ensures r.Ok? ==> SameIdentity(event, r.value)
    ensures r.Ok? ==> r.value.state == AdminTransition(event, dto.stateAction, now).value.state
    ensures r.Ok? ==> r.value.publishedOn == AdminTransition(event, dto.stateAction, now).value.publishedOn
  {
    match AdminTransition(event, dto.stateAction, now)
    case Err(e) => Err(e)
    case Ok(moved) => ApplyUpdate(moved, dto, categories, now)
  }

  /** Who may move an event from which state to which: the owner's two
      actions from any unpublished state, the admin's publication from PENDING
      only, the admin's rejection from any unpublished state. */
  datatype StateAction = Owner(privateAction: PrivateAction) | Admin(adminAction: AdminAction)

  predicate InTable(action: StateAction, from: State, to: State)
  {
    (action, from, to) in {
      (Owner(SEND_TO_REVIEW), PENDING, PENDING), (Owner(SEND_TO_REVIEW), CANCELED, PENDING),
      (Owner(CANCEL_REVIEW), PENDING, CANCELED), (Owner(CANCEL_REVIEW), CANCELED, CANCELED),
      (Admin(PUBLISH_EVENT), PENDING, PUBLISHED),
      (Admin(REJECT_EVENT), PENDING, CANCELED), (Admin(REJECT_EVENT), CANCELED, CANCELED)
    }
  }

  /** With the initiator asking and the fields acceptable, an owner action
      succeeds exactly when the table has a row for it from the current state,
      and then lands on that row's target. */
  lemma OwnerUpdateFollowsTable(event: Event, dto: EventUpdateDto, categories: seq<Category>, now: int, action: PrivateAction)
    requires ApplyUpdate(event, dto, categories, now).Ok?
    requires dto.stateAction == Some(PrivateActionName(action))
    ensures var r := OwnerUpdate(event, event.initiator.id, dto, categories, now);
            && (r.Ok? ==> InTable(Owner(action), event.state, r.value.state))
            && (forall to :: InTable(Owner(action), event.state, to) ==> r.Ok? && r.value.state == to)
  {
  }

  /** The same for the admin's actions. */
  lemma AdminUpdateFollowsTable(event: Event, dto: EventUpdateDto, categories: seq<Category>, now: int, action: AdminAction)
    requires dto.stateAction == Some(AdminActionName(action))
    requires (dto.category.None? || HasId(categories, CategoryId, dto.category.value))
    requires dto.eventDate.None? || dto.eventDate.value >= now + TwoHours
    ensures var r := AdminUpdate(event, dto, categories, now);
            && (r.Ok? ==> InTable(Admin(action), event.state, r.value.state))
            && (forall to :: InTable(Admin(action), event.state, to) ==> r.Ok? && r.value.state == to)
  {
    var moved := AdminTransition(event, dto.stateAction, now);
    if moved.Ok? {
      assert ApplyUpdate(moved.value, dto, categories, now).Ok?;
    }
  }

  /** A published event stays published with its publication time: the owner
      cannot update it at all, and any admin update that succeeds leaves state
      and publishedOn as they were. */
  lemma PublishedIsFinal(event: Event, userId: int, dto: EventUpdateDto, categories: seq<Category>, now: int)
    requires event.state == PUBLISHED
    ensures OwnerUpdate(event, userId, dto, categories, now).Err?
    ensures var r := AdminUpdate(event, dto, categories, now);
            r.Ok? ==> r.value.state == PUBLISHED && r.value.publishedOn == event.publishedOn
  {
  }

  /** publishedOn is set exactly when the event is PUBLISHED, before and after
      every successful update. */
  lemma UpdatesKeepPublishedConsistent(event: Event, userId: int, dto: EventUpdateDto, categories: seq<Category>, now: int)
    requires PublishedConsistent(event)
    ensures var r := OwnerUpdate(event, userId, dto, categories, now); r.Ok? ==> PublishedConsistent(r.value)
    ensures var r := AdminUpdate(event, dto, categories, now); r.Ok? ==> PublishedConsistent(r.value)
  {
  }

  /** An owner update that supplies only an annotation changes only the annotation. */
  lemma OnlyAnnotationChanges(event: Event, dto: EventUpdateDto, categories: seq<Category>, now: int, text: string)
    requires !IsBlank(text) && event.state != PUBLISHED
    requires dto == EventUpdateDto(Some(text), None, None, None, None, None, None, None, None, None)
    ensures OwnerUpdate(event, event.initiator.id, dto, categories, now) == Ok(event.(annotation := text))
  {
  }

  /** An event created with a date three hours ahead is PENDING; once the admin
      publishes it, it is PUBLISHED with publishedOn set, and a later owner
      update fails Conflict. */
  lemma CreatePublishThenOwnerConflict(draft: EventDraft, id: int, initiator: User, category: Category, location: Location,
                                       now: int, later: int, dto: EventUpdateDto, categories: seq<Category>)
    requires draft.eventDate == now + 3 * SecondsPerHour
    ensures var created := NewEvent(draft, id, initiator, category, location, now);
            var published := AdminTransition(created, Some("PUBLISH_EVENT"), later);
            && created.state == PENDING
            && published == Ok(created.(state := PUBLISHED, publishedOn := Some(later)))
            && OwnerUpdate(published.value, initiator.id, dto, categories, later) == Err(Conflict)
  {
  }
}
