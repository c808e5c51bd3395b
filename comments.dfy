/** ewm.comments: the comment entity, its DTOs and CommentMapper. */
module Comments {
  import opened Common
  import opened Users
  import opened Events

  /** A comment. id is a primitive long, 0 until the row is saved; created and
      confirmedRequests are nullable Java objects that the service always sets
      before saving; edited stays null until the first edit. */
  datatype Comment = Comment(
    id: int,
    text: string,
    author: User,
    event: Event,
    created: Option<int>,
    edited: Option<int>,
    confirmedRequests: Option<int>)

  datatype CommentCreateDto = CommentCreateDto(
    text: string,
    created: Option<int>,
    edited: Option<int>,
    confirmedRequests: Option<int>)

  datatype CommentDto = CommentDto(
    id: int,
    text: string,
    author: UserShortDto,
    event: EventShortDto,
    created: Option<int>,
    edited: Option<int>)

  function CommentId(comment: Comment): int
  {
    comment.id
  }

  /** mapModelToCommentDto. The nested event summary carries the count stored
      with the comment. The summary's count is a number in this model, so the
      mapping is stated for comments that carry one, as every stored comment
      does (the column is non-null and create always sets it). */
  function MapModelToCommentDto(comment: Comment): (dto: CommentDto)
    requires comment.confirmedRequests.Some?
    ensures dto.id == comment.id && dto.text == comment.text
    ensures dto.created == comment.created && dto.edited == comment.edited
    ensures dto.author == MapModelToShortDto(comment.author)
    ensures dto.event == MapModelToEventShortDto(comment.event, comment.confirmedRequests.value)
    ensures dto.event.confirmedRequests == comment.confirmedRequests.value
  {
    CommentDto(comment.id, comment.text, MapModelToShortDto(comment.author),
               MapModelToEventShortDto(comment.event, comment.confirmedRequests.value),
               comment.created, if comment.edited.Some? then comment.edited else None)
  }

  /** mapCommentCreateDtoToModel: the DTO's fields and the two references
      copied verbatim (a null created or edited stays null); no id yet. */
  function MapCommentCreateDtoToModel(dto: CommentCreateDto, author: User, event: Event): (comment: Comment)
    ensures comment.id == 0
    ensures comment.text == dto.text && comment.author == author && comment.event == event
    ensures comment.created == dto.created && comment.edited == dto.edited
    ensures comment.confirmedRequests == dto.confirmedRequests
  {
    Comment(0, dto.text, author, event, if dto.created.Some? then dto.created else None,
            if dto.edited.Some? then dto.edited else None, dto.confirmedRequests)
  }

  /** What a client reads back from a comment it creates: its own text and
      times, the author's short form and the event summary with the count it
      was created with. */
  lemma CreateDtoReadBack(dto: CommentCreateDto, author: User, event: Event)
    requires dto.confirmedRequests.Some?
    ensures var back := MapModelToCommentDto(MapCommentCreateDtoToModel(dto, author, event));
            && back.text == dto.text && back.created == dto.created && back.edited == dto.edited
            && back.author == MapModelToShortDto(author)
            && back.event == MapModelToEventShortDto(event, dto.confirmedRequests.value)
  {
  }

  /** mapListModelToCommentDto: same length, same order, each element mapped. */
  method MapListModelToCommentDto(comments: seq<Comment>) returns (commentsDto: seq<CommentDto>)
    requires forall i :: 0 <= i < |comments| ==> comments[i].confirmedRequests.Some?
    ensures |commentsDto| == |comments|
    ensures forall i :: 0 <= i < |comments| ==> commentsDto[i] == MapModelToCommentDto(comments[i])
  {
    commentsDto := [];
    for i := 0 to |comments|
      invariant |commentsDto| == i
      invariant forall k :: 0 <= k < i ==> commentsDto[k] == MapModelToCommentDto(comments[k])
    {
      commentsDto := commentsDto + [MapModelToCommentDto(comments[i])];
    }
  }
}
