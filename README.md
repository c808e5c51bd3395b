# explore-with-me main service: events, comments and categories in Dafny

This project models the core of the main service of *explore-with-me*, an
event-sharing backend. Users create events. An event starts PENDING, the
owner may send it back to review or cancel it, and an administrator publishes
or rejects it. Visitors search the published events and read one at a time.
Users comment on published events. Categories classify events.

The model covers:

- **Lifecycle** (`lifecycle.dfy`): the two-hour rule for event dates, the
  partial-update rule shared by the owner and admin update paths, and the
  state transitions each path allows. These are pure functions on one event.
- **EventManagement** (`event_service.dfy`): `EventServiceImpl` as a class over
  the events table. It creates events, updates them as owner or admin, lists
  an owner's events, runs the admin and public searches and fetches one
  published event. The update methods apply the setters one field at a time
  and are proved equal to the Lifecycle functions.
- **Search** (`search.dfy`): the JPA `Specification` each search conjoins
  from its filters, kept as a list of clauses. Each builder is proved to
  select exactly the events a declarative filter describes. The module also
  holds the `EVENT_DATE` ordering and the stats-window helpers.
- **CommentManagement** (`comment_service.dfy`) and **Categories**
  (`categories.dfy`): `CommentServiceImpl` and `CategoryServiceImpl` as classes
  over their tables.
- **Events** and **Comments** (`events.dfy`, `comments.dfy`): the entities,
  their DTOs, `EventMapper` and `CommentMapper`.
- **Tables** (`tables.dfy`): repositories as sequences of rows in id order,
  with `findById`, `save`, `deleteById`, filtering and
  `PageRequest.of(from / size, size)` paging. Saving a stored row is proved to
  change only the lookup of that id.
- **Requests** and **Stats** (`requests.dfy`, `stats.dfy`): the counting
  queries on participation requests and the stats client. Both are
  collaborators.

Every service call is one transaction. A call that ends in an exception is a
`Result.Err` (or `Outcome.Fail`) naming the exception's class, and it writes
nothing. Collaborators the services call are parameters:

- the users table is a `map` from id to user;
- the participation requests are a sequence;
- the stats service is a pair of functions;
- the current time `now` is an integer number of seconds.

The model follows the code in these behaviours, some of which differ from
what a client might expect:

- An event date less than two hours ahead fails with a conflict (409), not a
  validation error.
- In both searches, a stats-service failure propagates. Only the single-event
  fetch catches it, and then reports 1 view.
- Every event of a search page gets the hits of the first stats entry. An
  empty stats answer gives 0 views.
- An empty search page is NotFound, because the code takes the minimum
  `createdOn` of the page with `orElseThrow`.
- An inverted date range is a BadRequest in the public search and a
  ValidationException in the admin search.
- `onlyAvailable` keeps the events with `participantLimit >= 0`.
- `from` selects the page with index `from / size`. It is not a row offset.

## Model

| member | source | states |
|---|---|---|
| Categories.CategoryService.CheckAndReturnCategory | main-service/src/main/java/ewm/categories/service/CategoryServiceImpl.java:57-60 | Ok exactly when a stored category has the id, and then it is that row; NotFound otherwise |
| Categories.CategoryService.GetById | main-service/src/main/java/ewm/categories/service/CategoryServiceImpl.java:50-55 | Ok exactly when the id is stored, with that id and the stored name; NotFound otherwise |
| Categories.CategoryService.GetCategories | main-service/src/main/java/ewm/categories/service/CategoryServiceImpl.java:43-48 | at most size DTOs, the k-th being the row at position PageStart(from, size) + k |
| Categories.CategoryService.Create | main-service/src/main/java/ewm/categories/service/CategoryServiceImpl.java:24-28 | the category is appended under the next id and found again by it; every other lookup is unchanged; the ids stay ascending |
| Categories.CategoryService.Update | main-service/src/main/java/ewm/categories/service/CategoryServiceImpl.java:30-35 | NotFound with the table unchanged for a missing id; otherwise only that row's name changes and no other lookup changes |
| Categories.CategoryService.DeleteById | main-service/src/main/java/ewm/categories/service/CategoryServiceImpl.java:37-41 | NotFound with the table unchanged for a missing id; otherwise exactly one row goes and the id is no longer found |
| Tables.FindById | main-service/src/main/java/ewm/categories/service/CategoryServiceImpl.java:57-60 | the result is a row with that id, and there is none exactly when no row has the id |
| Tables.ReplaceById | main-service/src/main/java/ewm/categories/service/CategoryServiceImpl.java:34 | same length; each row with the saved id is the saved entity, every other row is kept |
| Tables.RemoveById | main-service/src/main/java/ewm/categories/service/CategoryServiceImpl.java:40 | the remaining rows are the rows whose id differs, and the id is gone |
| Tables.Page | main-service/src/main/java/ewm/categories/service/CategoryServiceImpl.java:46-47 | at most size rows, consecutive from PageStart(from, size), clipped at the end of the table |
| Tables.PageStart | main-service/src/main/java/ewm/categories/service/CategoryServiceImpl.java:46 | the page start is from rounded down to a multiple of size |
| Tables.PageAtAlignedOffset | main-service/src/main/java/ewm/categories/service/CategoryServiceImpl.java:46 | for from a multiple of size, the page starts at row from |
| Tables.PageAtMisalignedOffset | main-service/src/main/java/ewm/categories/service/CategoryServiceImpl.java:46 | otherwise the page starts before row from, at from - from % size |
| Tables.PageMembers | main-service/src/main/java/ewm/events/service/EventServiceImpl.java:250 | every row of a page is a row of the table |
| Tables.FindAfterAppend | main-service/src/main/java/ewm/categories/service/CategoryServiceImpl.java:27 | after inserting a row with a fresh id, that id finds it and every other lookup is unchanged |
| Tables.FindAfterReplace | main-service/src/main/java/ewm/categories/service/CategoryServiceImpl.java:34 | after saving a stored row, its id finds the new content and every other lookup is unchanged |
| Tables.RemoveOne | main-service/src/main/java/ewm/categories/service/CategoryServiceImpl.java:40 | deleting a stored id from a table with unique ids removes exactly one row |
| Tables.Filter | main-service/src/main/java/ewm/events/service/EventServiceImpl.java:200 | a query returns exactly the rows satisfying its condition, each at most as often as stored |
| Tables.FilterKeepsAscending | main-service/src/main/java/ewm/events/service/EventServiceImpl.java:200 | a query over a table in id order returns its rows in id order |
| Events.MapEventCreateDtoToModel | main-service/src/main/java/ewm/events/EventMapper.java:17-27 | the seven caller-supplied fields are copied verbatim |
| Events.MapModelToEventDto | main-service/src/main/java/ewm/events/EventMapper.java:29-47 | every scalar field (id, title, annotation, description, eventDate, paid, participantLimit, requestModeration, state, createdOn, publishedOn) is copied and the given count carried; category, initiator and location are their mapped forms |
| Events.MapModelToEventShortDto | main-service/src/main/java/ewm/events/EventMapper.java:49-60 | the full DTO cut down to its eight summary fields |
| Events.MapModelToEventDtoWithViews | main-service/src/main/java/ewm/events/EventMapper.java:63-82 | the full DTO plus the given views |
| Events.MapModelToEventShortDtoWithViews | main-service/src/main/java/ewm/events/EventMapper.java:84-96 | the short DTO plus the given views |
| Events.EventDtoDeterminesEvent | main-service/src/main/java/ewm/events/EventMapper.java:29-47 | two events with equal full DTOs differ at most in the initiator's e-mail |
| Requests.CountConfirmed | main-service/src/main/java/ewm/events/service/EventServiceImpl.java:137 | the count is the number of the event's CONFIRMED requests in the table (their multiplicity), at most the number of requests, and zero exactly when there is none |
| Requests.ConfirmedCounts | main-service/src/main/java/ewm/events/service/EventServiceImpl.java:200-206 | the map has only listed events with a positive count, and getOrDefault(id, 0) gives every listed event its confirmed count |
| Lifecycle.ParsePrivateAction | main-service/src/main/java/ewm/events/service/EventServiceImpl.java:129 | a result is the constant with that name; no result means no constant has the name |
| Lifecycle.ParseAdminAction | main-service/src/main/java/ewm/events/service/EventServiceImpl.java:145 | the same for the admin actions |
| Lifecycle.ValidateEventTime | main-service/src/main/java/ewm/events/service/EventServiceImpl.java:403-407 | passes exactly when the date is at least now + 2 hours; otherwise fails with Conflict |
| Lifecycle.NewEvent | main-service/src/main/java/ewm/events/service/EventServiceImpl.java:77-82 | the created event has the given id, initiator, category and location, is PENDING, created now and unpublished, and mapping its fields back gives the draft |
| Lifecycle.Patch | main-service/src/main/java/ewm/events/service/EventServiceImpl.java:96-127 | each text field is replaced exactly when a non-blank value is supplied, each other field exactly when a value is supplied; id, creation, initiator, state and publishedOn stay |
| Lifecycle.ApplyUpdate | main-service/src/main/java/ewm/events/service/EventServiceImpl.java:96-127 | NotFound for an unknown category before the date is checked, then Conflict for a date too soon; Ok exactly when neither applies, and then it is Patch with the stored category |
| Lifecycle.OwnerUpdate | main-service/src/main/java/ewm/events/service/EventServiceImpl.java:89-135 | BadRequest for anyone but the initiator, Conflict on a published event; otherwise the field update's NotFound or Conflict is passed on and an unknown action is IllegalArgument; success exactly when none of these happens, and the result is the field update with only the state changed, identity and publishedOn kept, the state following the action |
| Lifecycle.AdminTransition | main-service/src/main/java/ewm/events/service/EventServiceImpl.java:144-158 | no action keeps the event; PUBLISH_EVENT needs PENDING and stamps publishedOn; REJECT_EVENT needs an unpublished event; an unknown name is IllegalArgument |
| Lifecycle.AdminUpdate | main-service/src/main/java/ewm/events/service/EventServiceImpl.java:141-191 | a failed transition is the result; after a successful one the result is the field update applied to the moved event, so on success the identity stays and the state and publishedOn are those of the transition |
| Lifecycle.OwnerUpdateFollowsTable | main-service/src/main/java/ewm/events/service/EventServiceImpl.java:128-135 | an owner action succeeds exactly when the transition table has a row for it from the current state, and lands on that row's target |
| Lifecycle.AdminUpdateFollowsTable | main-service/src/main/java/ewm/events/service/EventServiceImpl.java:144-157 | the same for the admin actions |
| Lifecycle.PublishedIsFinal | main-service/src/main/java/ewm/events/service/EventServiceImpl.java:93-157 | a published event cannot be updated by its owner, and an admin update keeps it published with the same publishedOn |
| Lifecycle.UpdatesKeepPublishedConsistent | main-service/src/main/java/ewm/events/service/EventServiceImpl.java:128-157 | both update paths keep "publishedOn is set exactly when PUBLISHED" |
| Lifecycle.OnlyAnnotationChanges | main-service/src/main/java/ewm/events/service/EventServiceImpl.java:96-99 | an owner update supplying only a non-blank annotation changes only the annotation |
| Lifecycle.CreatePublishThenOwnerConflict | main-service/src/main/java/ewm/events/service/EventServiceImpl.java:71-158 | an event created three hours ahead is PENDING; publishing makes it PUBLISHED with publishedOn; the owner's next update is a Conflict |
| Search.And | main-service/src/main/java/ewm/events/service/EventServiceImpl.java:229-231 | the conjoined Specification holds exactly when the old one and the new clause both hold |
| Search.AdminSpecification | main-service/src/main/java/ewm/events/service/EventServiceImpl.java:229-249 | the built Specification selects exactly the events matching every supplied admin filter, with both date bounds inclusive |
| Search.ContentSpecification | main-service/src/main/java/ewm/events/service/EventServiceImpl.java:287-302 | the text, category and paid clauses select exactly the events matching those supplied filters |
| Search.PublicSpecification | main-service/src/main/java/ewm/events/service/EventServiceImpl.java:287-316 | the built Specification selects exactly the published events dated strictly after rangeStart (or now) and before rangeEnd that match the other filters |
| Search.ParseSort | main-service/src/main/java/ewm/events/service/EventServiceImpl.java:318-324 | EVENT_DATE and VIEWS are accepted by name; anything else is a ValidationException |
| Search.InsertByDate | main-service/src/main/java/ewm/events/service/EventServiceImpl.java:319-320 | inserting into a date-sorted list keeps it sorted and adds exactly that event |
| Search.SortByDate | main-service/src/main/java/ewm/events/service/EventServiceImpl.java:319-320 | the result is sorted by event date and is a permutation of the input |
| Search.AdminSelect | main-service/src/main/java/ewm/events/service/EventServiceImpl.java:229-250 | the rows returned are exactly the stored events matching the admin filters, each at most as often as stored, and in id order when the table is |
| Search.Arrange | main-service/src/main/java/ewm/events/service/EventServiceImpl.java:318-322 | a permutation of the matches, sorted by date for EVENT_DATE |
| Search.PublicSelect | main-service/src/main/java/ewm/events/service/EventServiceImpl.java:287-325 | the rows returned are exactly the stored events matching the public filters, each at most as often as stored, date-sorted for EVENT_DATE |
| Search.MinCreatedOn | main-service/src/main/java/ewm/events/service/EventServiceImpl.java:255-258 | the minimum createdOn of a non-empty page: no event is earlier, and some event has it |
| Search.Uris | main-service/src/main/java/ewm/events/service/EventServiceImpl.java:252-254 | one "/events/{id}" URI per event, in page order |
| Search.Ids | main-service/src/main/java/ewm/events/service/EventServiceImpl.java:261 | the ids of the page, in page order |
| Search.TextMatchIgnoresCase | main-service/src/main/java/ewm/events/service/EventServiceImpl.java:288-293 | a text and its lower-cased form match the same events |
| Search.EmptyTextMatchesAll | main-service/src/main/java/ewm/events/service/EventServiceImpl.java:288-293 | an empty text matches every event |
| Search.PublicSearchDefaultsToFuture | main-service/src/main/java/ewm/events/service/EventServiceImpl.java:303-306 | without rangeStart, no event dated now or earlier is found |
| EventManagement.EventService.CheckAndReturnEvent | main-service/src/main/java/ewm/events/service/EventServiceImpl.java:409-412 | Ok exactly when a stored event has the id, and then it is that row; NotFound otherwise |
| EventManagement.EventService.Create | main-service/src/main/java/ewm/events/service/EventServiceImpl.java:70-85 | Conflict, then unknown user, then unknown category; otherwise the new PENDING event is appended under the next id and returned with 0 confirmed; nothing is written on failure |
| EventManagement.EventService.PatchFields | main-service/src/main/java/ewm/events/service/EventServiceImpl.java:96-127 | the setters applied one by one give exactly ApplyUpdate |
| EventManagement.EventService.Save | main-service/src/main/java/ewm/events/service/EventServiceImpl.java:136-137 | the row is overwritten and found again; no other lookup changes; the DTO carries the confirmed count |
| EventManagement.EventService.UpdateEventByOwner | main-service/src/main/java/ewm/events/service/EventServiceImpl.java:87-138 | NotFound for a missing event; otherwise the outcome of OwnerUpdate, stored when it succeeds and with nothing written when it fails |
| EventManagement.EventService.UpdateEventByAdmin | main-service/src/main/java/ewm/events/service/EventServiceImpl.java:140-195 | NotFound for a missing event; otherwise the outcome of AdminUpdate, stored when it succeeds and with nothing written when it fails |
| EventManagement.EventService.EventsOf | main-service/src/main/java/ewm/events/service/EventServiceImpl.java:200 | exactly the stored events the user initiated, none repeated beyond the table, in id order |
| EventManagement.EventService.GetEventsByOwnerId | main-service/src/main/java/ewm/events/service/EventServiceImpl.java:197-208 | the page of the user's events, each with its confirmed count (0 when it has none) |
| EventManagement.EventService.GetEventByOwner | main-service/src/main/java/ewm/events/service/EventServiceImpl.java:210-219 | Ok exactly when the event exists and the caller initiated it; NotFound otherwise |
| EventManagement.EventService.FindAllByAdminFilter | main-service/src/main/java/ewm/events/service/EventServiceImpl.java:229-250 | running the built Specification gives the page of AdminSelect |
| EventManagement.EventService.FindAllByPublicFilter | main-service/src/main/java/ewm/events/service/EventServiceImpl.java:287-325 | running the built Specification with the sort gives the page of PublicSelect |
| EventManagement.EventService.GetEventsByAdmin | main-service/src/main/java/ewm/events/service/EventServiceImpl.java:221-276 | Validation for an inverted range, NotFound for an empty page, StatsUnavailable when the stats call fails; otherwise each event with its count and the first entry's hits |
| EventManagement.EventService.GetEvents | main-service/src/main/java/ewm/events/service/EventServiceImpl.java:278-357 | BadRequest for an inverted range, Validation for an unknown sort, NotFound for an empty page, StatsUnavailable when recording or fetching fails; otherwise each event with its count and the first entry's hits |
| EventManagement.EventService.GetEventById | main-service/src/main/java/ewm/events/service/EventServiceImpl.java:359-401 | NotFound unless the event exists and is PUBLISHED; views are the first entry's hits, 0 for none, and 1 when the stats call fails |
| EventManagement.ReplaceEventRow | main-service/src/main/java/ewm/events/service/EventServiceImpl.java:136 | saving a stored event keeps ids ascending and the publication invariant, and only that id's lookup changes |
| EventManagement.DecorateWithViews | main-service/src/main/java/ewm/events/service/EventServiceImpl.java:264-274 | one DTO per event, in order, each with the first entry's hits and the event's count from the map |
| EventManagement.DecorateShortWithViews | main-service/src/main/java/ewm/events/service/EventServiceImpl.java:344-354 | the same with the short DTO |
| EventManagement.CountsOfPage | main-service/src/main/java/ewm/events/service/EventServiceImpl.java:261-272 | the aggregated map gives every event of the page its confirmed count |
| Comments.MapModelToCommentDto | main-service/src/main/java/ewm/comments/CommentMapper.java:21-30 | id, text and times are copied; the author is its short form; the event summary carries the stored count |
| Comments.MapCommentCreateDtoToModel | main-service/src/main/java/ewm/comments/CommentMapper.java:32-41 | the DTO's fields and the two references are copied verbatim, with no id yet |
| Comments.CreateDtoReadBack | main-service/src/main/java/ewm/comments/CommentMapper.java:21-41 | mapping a create DTO to a comment and back returns its text, times, author and event summary |
| Comments.MapListModelToCommentDto | main-service/src/main/java/ewm/comments/CommentMapper.java:43-49 | same length and order, each comment mapped |
| CommentManagement.CommentService.CheckAndReturnComment | main-service/src/main/java/ewm/comments/service/CommentServiceImpl.java:110-113 | Ok exactly when a stored comment has the id; NotFound otherwise |
| CommentManagement.CommentService.CheckAndReturnEvent | main-service/src/main/java/ewm/comments/service/CommentServiceImpl.java:115-118 | Ok exactly when a stored event has the id; NotFound otherwise |
| CommentManagement.CommentService.Create | main-service/src/main/java/ewm/comments/service/CommentServiceImpl.java:36-48 | NotFound for an unknown user or event, BadRequest for an unpublished event; otherwise the comment is appended with created = now and the current confirmed count |
| CommentManagement.CommentService.Update | main-service/src/main/java/ewm/comments/service/CommentServiceImpl.java:50-64 | NotFound for a missing comment, another author or another event; otherwise only text and edited change; no other comment changes |
| CommentManagement.CommentService.Save | main-service/src/main/java/ewm/comments/service/CommentServiceImpl.java:63 | the row is overwritten and found again; no other lookup changes |
| CommentManagement.ReplaceCommentRow | main-service/src/main/java/ewm/comments/service/CommentServiceImpl.java:63 | saving a stored comment keeps ids ascending and the non-null columns set, and only that id's lookup changes |
| CommentManagement.CommentService.DeleteCommentByUser | main-service/src/main/java/ewm/comments/service/CommentServiceImpl.java:66-73 | NotFound with the table unchanged for a missing comment or another author; Pass exactly otherwise, and then exactly that comment goes |
| CommentManagement.CommentService.DeleteCommentByAdmin | main-service/src/main/java/ewm/comments/service/CommentServiceImpl.java:75-79 | NotFound with the table unchanged for a missing comment; otherwise exactly that comment goes |
| CommentManagement.CommentService.Remove | main-service/src/main/java/ewm/comments/service/CommentServiceImpl.java:72 | deleting a stored id removes exactly one row, after which the id is not found |
| CommentManagement.CommentService.GetCommentById | main-service/src/main/java/ewm/comments/service/CommentServiceImpl.java:81-86 | Ok exactly when the comment is stored, and then it is its DTO; NotFound otherwise |
| CommentManagement.CommentService.CommentsOnEvent | main-service/src/main/java/ewm/comments/service/CommentServiceImpl.java:92 | exactly the stored comments on the event, none repeated beyond the table, in id order |
| CommentManagement.CommentService.CommentsBy | main-service/src/main/java/ewm/comments/service/CommentServiceImpl.java:103 | exactly the stored comments by the user, none repeated beyond the table, in id order |
| CommentManagement.CommentService.GetCommentsByEventId | main-service/src/main/java/ewm/comments/service/CommentServiceImpl.java:88-97 | NotFound for a missing event; otherwise the page of its comments, mapped in order |
| CommentManagement.CommentService.GetCommentsByUserId | main-service/src/main/java/ewm/comments/service/CommentServiceImpl.java:99-108 | NotFound for an unknown user; otherwise the page of their comments, mapped in order |

## Left out

- Entity references: the category, initiator, author and event a row refers to are value snapshots. Renaming a category does not show through the events that refer to it, as a lazily loaded JPA reference would.
- Lower-casing: only ASCII letters are lower-cased. `String.toLowerCase` and SQL `lower()` also fold other scripts.
- `LIKE` wildcards: `%` and `_` inside the search text are read literally. The database would treat them as wildcards.
- Time: each call reads one `now`, and timestamps are whole seconds. The source reads the clock several times per call.
- The 150 ms sleep and the logging in `getEventById` are left out. The hit it records is left out too: its outcome is caught and does not reach the result.
- Search.PublicSelect: for the VIEWS sort the rows keep table order. The source asks the database to sort by a `views` property, and the `Event` entity is not part of this model.
- Queries without a Sort: Tables.Filter, Tables.FilterKeepsAscending, Search.AdminSelect, EventManagement.EventService.EventsOf, CommentManagement.CommentService.CommentsOnEvent and CommentsBy return rows in table (id) order. The source's queries `findAllByInitiatorId`, `findAll(specification, …)`, `findAllByEventId`, `findAllByAuthorId` and `categoryRepository.findAll` pass a bare `PageRequest`, so the database gives no order. Which rows land on page from / size, and in what order, is therefore fixed by this model and not by the source. That affects Categories.CategoryService.GetCategories, EventManagement.EventService.GetEventsByOwnerId, FindAllByAdminFilter, GetEventsByAdmin, and CommentManagement.CommentService.GetCommentsByEventId and GetCommentsByUserId. The public search under the VIEWS sort is covered by the Search.PublicSelect line above.
- Search.SortByDate: events with equal dates come out in one fixed order. The database's order for ties is unspecified.
- A null `sort` in the public search (a NullPointerException in the source) is outside the model: the sort is a string.
- Category name uniqueness is the database's constraint and is not modelled. Neither is the persistence of locations: `getOrSave` gives the location with the supplied coordinates.
- Coordinates are reals, not floating point.
- Paging: `from` is a `nat` and `size` must be positive in Tables.Page, Tables.PageStart, Categories.CategoryService.GetCategories, EventManagement.EventService.GetEventsByOwnerId, FindAllByAdminFilter, FindAllByPublicFilter, GetEventsByAdmin, GetEvents and CommentManagement.CommentService.GetCommentsByEventId and GetCommentsByUserId. The controllers' bean validation (`@PositiveOrZero`, `@Positive`) is assumed. Without it the source would fail on `from / size` with a zero size (ArithmeticException) or on a negative page (IllegalArgumentException from `PageRequest.of`).
- User ids: `User` and `Event` are not part of this model. Their ids are taken to be primitive `long`, so `getId() != userId` compares values.
- Comments.MapModelToCommentDto: it requires the comment to carry a confirmed count. The event DTOs are not part of this model, so a null count is not followed through them. Every stored comment carries one.
- The stats client's HTTP transport and JSON conversion are left out. The client is two functions: `save` succeeds or throws, and `getStats` yields entries or fails.
- `getCommentById` saves the unchanged comment again. That write changes nothing and is not modelled.
- Concurrency between transactions is not modelled. Each call runs alone, and a failing call writes nothing.
- The user, location and request services are collaborators, not part of this model. Users are a map, locations are built from their coordinates, and requests are a sequence.
