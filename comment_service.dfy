/** CommentServiceImpl over the comments table. Users and participation
    requests are collaborators passed in by the caller; events are looked up in
    the events service. */
module CommentManagement {
  import opened Common
  import opened Tables
  import opened Users
  import opened Events
  import opened Comments
  import opened EventManagement
  import Requests

  /** The columns declared non-null are set on every stored comment. */
  predicate Stored(comment: Comment)
  {
    comment.created.Some? && comment.confirmedRequests.Some?
  }

  /** Saving a stored comment over its row keeps the table well formed, and
      only the lookup of that one id sees the change. */
  lemma ReplaceCommentRow(rows: seq<Comment>, comment: Comment, bound: int)
    requires IdsAscending(rows, CommentId) && IdsBelow(rows, CommentId, bound) && HasId(rows, CommentId, comment.id)
    requires (forall i :: 0 <= i < |rows| ==> Stored(rows[i])) && Stored(comment)
    ensures var after := ReplaceById(rows, CommentId, comment);
            && IdsAscending(after, CommentId) && IdsBelow(after, CommentId, bound)
            && (forall i :: 0 <= i < |after| ==> Stored(after[i]))
            && FindById(after, CommentId, comment.id) == Some(comment)
            && forall id :: id != comment.id ==> FindById(after, CommentId, id) == FindById(rows, CommentId, id)
  {
    var after := ReplaceById(rows, CommentId, comment);
    forall i | 0 <= i < |after|
      ensures Stored(after[i])
    {
    }
    FindAfterReplace(rows, CommentId, comment);
    ReplaceKeepsIds(rows, CommentId, comment, bound);
  }

  /** An edit by update: the text is replaced and edited stamped; id, author,
      event, created and the stored count stay. */
  predicate EditedFrom(before: Comment, after: Comment, text: string, now: int)
  {
    && after.id == before.id && after.author == before.author && after.event == before.event
    && after.created == before.created && after.confirmedRequests == before.confirmedRequests
    && after.text == text && after.edited == Some(now)
  }

  class CommentService {
    const events: EventService
    /** The comments table, in id order. */
    var rows: seq<Comment>
    /** The id the identity column hands out next. */
    var nextId: int

    ghost predicate Valid()
      reads this
    {
      && nextId >= 1
      && IdsAscending(rows, CommentId)
      && IdsBelow(rows, CommentId, nextId)
      && forall i :: 0 <= i < |rows| ==> Stored(rows[i])
    }

    constructor (events: EventService)
      ensures Valid() && rows == [] && this.events == events
    {
      this.events := events;
      rows := [];
      nextId := 1;
    }

    /** checkAndReturnComment: the stored comment with that id, or NotFound. */
    function CheckAndReturnComment(commentId: int): (r: Result<Comment>)
      reads this
      ensures r.Ok? <==> HasId(rows, CommentId, commentId)
      ensures r.Ok? ==> r.value in rows && r.value.id == commentId
      ensures r.Err? ==> r.error == NotFound
    {
      match FindById(rows, CommentId, commentId)
      case Some(comment) => Ok(comment)
      case None => Err(NotFound)
    }

    /** checkAndReturnEvent: the stored event with that id, or NotFound. */
    function CheckAndReturnEvent(eventId: int): (r: Result<Event>)
      reads events
      ensures r.Ok? <==> HasId(events.rows, EventId, eventId)
      ensures r.Ok? ==> r.value in events.rows && r.value.id == eventId
      ensures r.Err? ==> r.error == NotFound
    {
      events.CheckAndReturnEvent(eventId)
    }

    /** create: NotFound for an unknown user or event, BadRequest for an event
        that is not PUBLISHED; otherwise a comment is stored under a fresh id
        with created = now and the event's confirmed count at this moment, and
        the client's edited value kept as sent. */
    method Create(userId: int, eventId: int, dto: CommentCreateDto, users: map<int, User>,
                  requests: seq<Requests.ParticipationRequest>, now: int) returns (r: Result<CommentDto>)
      requires Valid()
      modifies this
      ensures Valid()
      ensures userId !in users ==> r == Err(NotFound)
      ensures userId in users && !HasId(events.rows, EventId, eventId) ==> r == Err(NotFound)
      ensures userId in users && HasId(events.rows, EventId, eventId) && CheckAndReturnEvent(eventId).value.state != PUBLISHED ==>
                r == Err(BadRequest)
      ensures r.Ok? <==> userId in users && HasId(events.rows, EventId, eventId)
                         && CheckAndReturnEvent(eventId).value.state == PUBLISHED
      ensures r.Err? ==> rows == old(rows) && nextId == old(nextId)
      ensures r.Ok? ==>
                var comment := Comment(old(nextId), dto.text, users[userId], CheckAndReturnEvent(eventId).value, Some(now),
                                       dto.edited, Some(Requests.CountConfirmed(requests, eventId)));
                && rows == old(rows) + [comment]
                && nextId == old(nextId) + 1
                && CheckAndReturnComment(comment.id) == Ok(comment)
                && r.value == MapModelToCommentDto(comment)
                && r.value.event.confirmedRequests == Requests.CountConfirmed(requests, eventId)
    {
      if userId !in users {
        return Err(NotFound);
      }
      var author := users[userId];
      var event := CheckAndReturnEvent(eventId);
      if event.Err? {
        return Err(event.error);
      }
      if event.value.state != PUBLISHED {
        return Err(BadRequest);
      }
      var filled := dto.(created := Some(now), confirmedRequests := Some(Requests.CountConfirmed(requests, eventId)));
      var comment := MapCommentCreateDtoToModel(filled, author, event.value);
      comment := comment.(id := nextId);
      FindAfterAppend(rows, CommentId, comment, nextId);
      AppendKeepsIds(rows, CommentId, comment, nextId);
      rows := rows + [comment];
      nextId := nextId + 1;
      r := Ok(MapModelToCommentDto(comment));
    }

    /** update: NotFound for a missing comment, for anyone but its author and
        for an event id that is not the comment's; otherwise only the text and
        edited change. */
    method Update(userId: int, eventId: int, commentId: int, dto: CommentCreateDto, now: int) returns (r: Result<CommentDto>)
      requires Valid()
      modifies this
      ensures Valid() && nextId == old(nextId)
      ensures !old(HasId(rows, CommentId, commentId)) ==> r == Err(NotFound)
      ensures old(HasId(rows, CommentId, commentId)) ==>
                var before := old(CheckAndReturnComment(commentId)).value;
                && (before.author.id != userId ==> r == Err(NotFound))
                && (before.author.id == userId && before.event.id != eventId ==> r == Err(NotFound))
                && (r.Ok? <==> before.author.id == userId && before.event.id == eventId)
                && (r.Ok? ==>
                      var after := before.(text := dto.text, edited := Some(now));
                      && EditedFrom(before, after, dto.text, now)
                      && rows == ReplaceById(old(rows), CommentId, after)
                      && CheckAndReturnComment(commentId) == Ok(after)
                      && r.value == MapModelToCommentDto(after))
      ensures r.Err? ==> rows == old(rows)
      ensures forall id :: id != commentId ==> CheckAndReturnComment(id) == old(CheckAndReturnComment(id))
    {
      var found := CheckAndReturnComment(commentId);
      if found.Err? {
        return Err(found.error);
      }
      var comment := found.value;
      if comment.author.id != userId {
        return Err(NotFound);
      }
      if comment.event.id != eventId {
        return Err(NotFound);
      }
      comment := comment.(text := dto.text);
      comment := comment.(edited := Some(now));
      Save(comment);
      r := Ok(MapModelToCommentDto(comment));
    }

    /** save of a stored comment: its row is overwritten, every other lookup
        is unaffected. */
    method Save(comment: Comment)
      requires Valid() && HasId(rows, CommentId, comment.id) && Stored(comment)
      modifies this
      ensures Valid() && nextId == old(nextId)
      ensures rows == ReplaceById(old(rows), CommentId, comment)
      ensures CheckAndReturnComment(comment.id) == Ok(comment)
      ensures forall id :: id != comment.id ==> FindById(rows, CommentId, id) == FindById(old(rows), CommentId, id)
    {
      ReplaceCommentRow(rows, comment, nextId);
      rows := ReplaceById(rows, CommentId, comment);
    }

    /** deleteCommentByUser: NotFound for a missing comment and for anyone but
        its author, with the table unchanged; otherwise the comment is gone. */
    method DeleteCommentByUser(userId: int, commentId: int) returns (r: Outcome)
      requires Valid()
      modifies this
      ensures Valid() && nextId == old(nextId)
      ensures !old(HasId(rows, CommentId, commentId)) ==> r == Fail(NotFound) && rows == old(rows)
      ensures old(HasId(rows, CommentId, commentId)) && old(CheckAndReturnComment(commentId)).value.author.id != userId ==>
                r == Fail(NotFound) && rows == old(rows)
      ensures r == Pass <==> old(HasId(rows, CommentId, commentId)) && old(CheckAndReturnComment(commentId)).value.author.id == userId
      ensures r == Pass ==>
                && rows == RemoveById(old(rows), CommentId, commentId)
                && |rows| == |old(rows)| - 1
                && CheckAndReturnComment(commentId) == Err(NotFound)
    {
      var found := CheckAndReturnComment(commentId);
      if found.Err? {
        return Fail(found.error);
      }
      if found.value.author.id != userId {
        return Fail(NotFound);
      }
      r := Remove(commentId);
    }

    /** deleteCommentByAdmin: NotFound for a missing comment, with the table
        unchanged; otherwise exactly that comment goes. */
    method DeleteCommentByAdmin(commentId: int) returns (r: Outcome)
      requires Valid()
      modifies this
      ensures Valid() && nextId == old(nextId)
      ensures !old(HasId(rows, CommentId, commentId)) ==> r == Fail(NotFound) && rows == old(rows)
      ensures old(HasId(rows, CommentId, commentId)) ==>
                && r == Pass
                && rows == RemoveById(old(rows), CommentId, commentId)
                && |rows| == |old(rows)| - 1
                && CheckAndReturnComment(commentId) == Err(NotFound)
    {
      var found := CheckAndReturnComment(commentId);
      if found.Err? {
        return Fail(found.error);
      }
      r := Remove(commentId);
    }

    /** deleteById of a stored comment. */
    method Remove(commentId: int) returns (r: Outcome)
      requires Valid() && HasId(rows, CommentId, commentId)
      modifies this
      ensures Valid() && nextId == old(nextId) && r == Pass
      ensures rows == RemoveById(old(rows), CommentId, commentId)
      ensures |rows| == |old(rows)| - 1
      ensures CheckAndReturnComment(commentId) == Err(NotFound)
    {
      RemoveOne(rows, CommentId, commentId);
      RemoveKeepsAscending(rows, CommentId, commentId);
      RemoveKeepsBelow(rows, CommentId, commentId, nextId);
      rows := RemoveById(rows, CommentId, commentId);
      r := Pass;
    }

    /** getCommentById: the stored comment's DTO, or NotFound. */
    function GetCommentById(commentId: int): (r: Result<CommentDto>)
      requires Valid()
      reads this
      ensures r.Ok? <==> HasId(rows, CommentId, commentId)
      ensures r.Err? ==> r.error == NotFound
      ensures r.Ok? ==> r.value.id == commentId && r.value == MapModelToCommentDto(CheckAndReturnComment(commentId).value)
    {
      match CheckAndReturnComment(commentId)
      case Err(e) => Err(e)
      case Ok(comment) => Ok(MapModelToCommentDto(comment))
    }

    /** The comments on one event, in id order. */
    function CommentsOnEvent(eventId: int): (r: seq<Comment>)
      reads this
      ensures forall i :: 0 <= i < |r| ==> r[i] in rows && r[i].event.id == eventId
      ensures forall i :: 0 <= i < |rows| && rows[i].event.id == eventId ==> rows[i] in r
      ensures multiset(r) <= multiset(rows)
      ensures Valid() ==> IdsAscending(r, CommentId)
    {
      FilterKeepsAscending(rows, CommentId, (comment: Comment) => comment.event.id == eventId);
      Filter(rows, (comment: Comment) => comment.event.id == eventId)
    }

    /** The comments one user wrote, in id order. */
    function CommentsBy(userId: int): (r: seq<Comment>)
      reads this
      ensures forall i :: 0 <= i < |r| ==> r[i] in rows && r[i].author.id == userId
      ensures forall i :: 0 <= i < |rows| && rows[i].author.id == userId ==> rows[i] in r
      ensures multiset(r) <= multiset(rows)
      ensures Valid() ==> IdsAscending(r, CommentId)
    {
      FilterKeepsAscending(rows, CommentId, (comment: Comment) => comment.author.id == userId);
      Filter(rows, (comment: Comment) => comment.author.id == userId)
    }

    /** getCommentsByEventId: NotFound for a missing event; otherwise page
        from / size of its comments, mapped in order (an empty page is an empty
        list). */
    method GetCommentsByEventId(eventId: int, from: nat, size: nat) returns (r: Result<seq<CommentDto>>)
      requires Valid() && size > 0
      ensures !HasId(events.rows, EventId, eventId) ==> r == Err(NotFound)
      ensures HasId(events.rows, EventId, eventId) ==>
                var page := Page(CommentsOnEvent(eventId), from, size);
                && r.Ok? && |r.value| == |page|
                && forall k :: 0 <= k < |page| ==>
                     && page[k] in rows && page[k].event.id == eventId
                     && r.value[k] == MapModelToCommentDto(page[k])
    {
      var event := CheckAndReturnEvent(eventId);
      if event.Err? {
        return Err(event.error);
      }
      var comments := Page(CommentsOnEvent(eventId), from, size);
      if comments == [] {
        return Ok([]);
      }
      var commentsDto := MapListModelToCommentDto(comments);
      r := Ok(commentsDto);
    }

    /** getCommentsByUserId: NotFound for an unknown user; otherwise page
        from / size of the comments they wrote, mapped in order. */
    method GetCommentsByUserId(userId: int, from: nat, size: nat, users: map<int, User>) returns (r: Result<seq<CommentDto>>)
      requires Valid() && size > 0
      ensures userId !in users ==> r == Err(NotFound)
      ensures userId in users ==>
                var page := Page(CommentsBy(userId), from, size);
                && r.Ok? && |r.value| == |page|
                && forall k :: 0 <= k < |page| ==>
                     && page[k] in rows && page[k].author.id == userId
                     && r.value[k] == MapModelToCommentDto(page[k])
    {
      if userId !in users {
        return Err(NotFound);
      }
      var comments := Page(CommentsBy(userId), from, size);
      if comments == [] {
        return Ok([]);
      }
      var commentsDto := MapListModelToCommentDto(comments);
      r := Ok(commentsDto);
    }
  }
}
