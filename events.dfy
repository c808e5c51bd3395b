/** ewm.events: the event entity, its DTOs and EventMapper's projections. */
module Events {
  import opened Common
  import opened Users
  import opened Locations
  import opened Categories

  datatype State = PENDING | PUBLISHED | CANCELED

  /** State.name(), the text `root.get("state").as(String.class)` compares. */
  function StateName(state: State): string
  {
    match state
    case PENDING => "PENDING"
    case PUBLISHED => "PUBLISHED"
    case CANCELED => "CANCELED"
  }

  /** A stored event. publishedOn is null until the event is published. */
  datatype Event = Event(
    id: int,
    annotation: string,
    category: Category,
    createdOn: int,
    description: string,
    eventDate: int,
    initiator: User,
    location: Location,
    paid: bool,
    participantLimit: int,
    publishedOn: Option<int>,
    requestModeration: bool,
    state: State,
    title: string)

  function EventId(event: Event): int
  {
    event.id
  }

  /** An event is published exactly when it carries a publication time. */
  predicate PublishedConsistent(event: Event)
  {
    event.publishedOn.Some? <==> event.state == PUBLISHED
  }

  datatype EventCreateDto = EventCreateDto(
    annotation: string,
    category: int,
    description: string,
    eventDate: int,
    location: LocationDto,
    paid: bool,
    participantLimit: int,
    requestModeration: bool,
    title: string)

  /** The entity mapEventCreateDtoToModel builds: only these seven fields are
      set; id, state, createdOn, publishedOn, initiator, category and location
      are left for the service to fill in. */
  datatype EventDraft = EventDraft(
    annotation: string,
    description: string,
    eventDate: int,
    paid: bool,
    participantLimit: int,
    requestModeration: bool,
    title: string)

  datatype EventDto = EventDto(
    id: int,
    annotation: string,
    category: CategoryDto,
    confirmedRequests: int,
    createdOn: int,
    description: string,
    eventDate: int,
    initiator: UserShortDto,
    location: LocationDto,
    paid: bool,
    participantLimit: int,
    publishedOn: Option<int>,
    requestModeration: bool,
    state: State,
    title: string)

  datatype EventShortDto = EventShortDto(
    id: int,
    annotation: string,
    category: CategoryDto,
    confirmedRequests: int,
    eventDate: int,
    initiator: UserShortDto,
    paid: bool,
    title: string)

  datatype EventViewsDto = EventViewsDto(
    id: int,
    annotation: string,
    category: CategoryDto,
    confirmedRequests: int,
    createdOn: int,
    description: string,
    eventDate: int,
    initiator: UserShortDto,
    location: LocationDto,
    paid: bool,
    participantLimit: int,
    publishedOn: Option<int>,
    requestModeration: bool,
    state: State,
    title: string,
    views: int)

  datatype EventViewsShortDto = EventViewsShortDto(
    id: int,
    annotation: string,
    category: CategoryDto,
    confirmedRequests: int,
    eventDate: int,
    initiator: UserShortDto,
    paid: bool,
    title: string,
    views: int)

  /** The fields a full DTO shares with the short one. */
  function Shorten(dto: EventDto): EventShortDto
  {
    EventShortDto(dto.id, dto.annotation, dto.category, dto.confirmedRequests, dto.eventDate,
                  dto.initiator, dto.paid, dto.title)
  }

  function WithoutViews(dto: EventViewsDto): EventDto
  {
    EventDto(dto.id, dto.annotation, dto.category, dto.confirmedRequests, dto.createdOn,
             dto.description, dto.eventDate, dto.initiator, dto.location, dto.paid,
             dto.participantLimit, dto.publishedOn, dto.requestModeration, dto.state, dto.title)
  }

  function ShortWithoutViews(dto: EventViewsShortDto): EventShortDto
  {
    EventShortDto(dto.id, dto.annotation, dto.category, dto.confirmedRequests, dto.eventDate,
                  dto.initiator, dto.paid, dto.title)
  }

  /** mapEventCreateDtoToModel: the seven fields the caller supplies are copied verbatim. */
  function MapEventCreateDtoToModel(dto: EventCreateDto): (draft: EventDraft)
    ensures draft.annotation == dto.annotation && draft.description == dto.description
    ensures draft.eventDate == dto.eventDate && draft.title == dto.title
    ensures draft.paid == dto.paid && draft.participantLimit == dto.participantLimit
    ensures draft.requestModeration == dto.requestModeration
  {
    EventDraft(dto.annotation, dto.description, dto.eventDate, dto.paid, dto.participantLimit,
               dto.requestModeration, dto.title)
  }

  /** mapModelToEventDto: the event as it is stored, with the confirmed count
      the caller passes. */
  function MapModelToEventDto(event: Event, confirmedRequests: int): (dto: EventDto)
    ensures dto.id == event.id && dto.state == event.state
    ensures dto.annotation == event.annotation && dto.description == event.description && dto.title == event.title
    ensures dto.eventDate == event.eventDate && dto.paid == event.paid
    ensures dto.participantLimit == event.participantLimit && dto.requestModeration == event.requestModeration
    ensures dto.publishedOn == event.publishedOn && dto.createdOn == event.createdOn
    ensures dto.confirmedRequests == confirmedRequests
    ensures dto.category == MapModelToCategoryDto(event.category)
    ensures dto.initiator == MapModelToShortDto(event.initiator)
    ensures dto.location == Locations.MapModelToDto(event.location)
  {
    EventDto(event.id, event.annotation, MapModelToCategoryDto(event.category), confirmedRequests,
             event.createdOn, event.description, event.eventDate, MapModelToShortDto(event.initiator),
             Locations.MapModelToDto(event.location), event.paid, event.participantLimit,
             event.publishedOn, event.requestModeration, event.state, event.title)
  }

  /** mapModelToEventShortDto: the full DTO cut down to the eight summary fields. */
  function MapModelToEventShortDto(event: Event, confirmedRequests: int): (dto: EventShortDto)
    ensures dto == Shorten(MapModelToEventDto(event, confirmedRequests))
  {
    EventShortDto(event.id, event.annotation, MapModelToCategoryDto(event.category), confirmedRequests,
                  event.eventDate, MapModelToShortDto(event.initiator), event.paid, event.title)
  }

  /** mapModelToEventDtoWithViews: the full DTO plus the given view count. */
  function MapModelToEventDtoWithViews(event: Event, views: int, confirmedRequests: int): (dto: EventViewsDto)
    ensures WithoutViews(dto) == MapModelToEventDto(event, confirmedRequests)
    ensures dto.views == views
  {
    EventViewsDto(event.id, event.annotation, MapModelToCategoryDto(event.category), confirmedRequests,
                  event.createdOn, event.description, event.eventDate, MapModelToShortDto(event.initiator),
                  Locations.MapModelToDto(event.location), event.paid, event.participantLimit,
                  event.publishedOn, event.requestModeration, event.state, event.title, views)
  }

  /** mapModelToEventShortDtoWithViews: the short DTO plus the given view count. */
  function MapModelToEventShortDtoWithViews(event: Event, views: int, confirmedRequests: int): (dto: EventViewsShortDto)
    ensures ShortWithoutViews(dto) == MapModelToEventShortDto(event, confirmedRequests)
    ensures dto.views == views
  {
    EventViewsShortDto(event.id, event.annotation, MapModelToCategoryDto(event.category), confirmedRequests,
                       event.eventDate, MapModelToShortDto(event.initiator), event.paid, event.title, views)
  }

  /** The full DTO loses nothing of the event but the initiator's e-mail:
      two events with the same DTO differ at most there. */
  lemma EventDtoDeterminesEvent(a: Event, b: Event, confirmedRequests: int)
    requires MapModelToEventDto(a, confirmedRequests) == MapModelToEventDto(b, confirmedRequests)
    ensures a == b.(initiator := b.initiator.(email := a.initiator.email))
  {
  }
}
