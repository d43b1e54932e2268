/** The Comment handlers: a paged, newest-first listing of a video's comments
    with their total, and add, update and delete gated by id, existence and
    ownership. */
module CommentController {
  import opened Common
  import opened Entities
  import opened Listing

  /** Every stored comment sits under its own id. */
  ghost predicate KeyedById(comments: map<Id, Comment>) {
    forall k | k in comments :: comments[k].id == k
  }

  /** `{ video: id }`: the comments on one video. */
  function CommentsOn(comments: map<Id, Comment>, video: Id): set<Comment> {
    set c | c in comments.Values && c.video == video
  }

  function CreatedAt(c: Comment): int {
    c.createdAt
  }

  /** One page of comments with the total count of the video's comments. */
  datatype CommentPage = CommentPage(comments: seq<Comment>, totalComments: nat)

  /** getVideoComments: the total counts every comment on the video; the page
      is the video's comments newest first, after skipping `(page-1)*limit`
      and keeping at most `limit` (0 keeps all, a negative limit keeps its
      magnitude), where an absent page is 1 and an absent limit 10. A
      negative skip is refused by the database. */
  method GetVideoComments(comments: map<Id, Comment>, videoId: string, page: Option<int>, limit: Option<int>)
    returns (r: Response<CommentPage>, ghost ordered: seq<Comment>)
    ensures !IsValidObjectId(videoId) ==> r == Err(BAD_REQUEST, "Invalid video ID")
    ensures IsValidObjectId(videoId) && (ValueOr(page, DEFAULT_PAGE) - 1) * ValueOr(limit, DEFAULT_LIMIT) < 0 ==>
      r == Err(SERVER_ERROR, QUERY_REJECTED)
    ensures IsValidObjectId(videoId) && (ValueOr(page, DEFAULT_PAGE) - 1) * ValueOr(limit, DEFAULT_LIMIT) >= 0 ==>
      var on := CommentsOn(comments, ObjectIdOf(videoId));
      var n := ValueOr(limit, DEFAULT_LIMIT);
      && r.Ok? && r.status == OK
      && r.data.totalComments == |on|
      && IsListing(ordered, on) && NewestFirst(ordered, CreatedAt)
      && r.data.comments == Window(ordered, (ValueOr(page, DEFAULT_PAGE) - 1) * n, FindLimit(n, |on|))
      && NewestFirst(r.data.comments, CreatedAt)
      && Distinct(r.data.comments)
      && (forall c | c in r.data.comments :: c in on)
    ensures IsValidObjectId(videoId) && page.None? && limit.None? ==>
      r.Ok? && r.data.comments == Window(ordered, 0, 10)
  {
    ordered := [];
    if !IsValidObjectId(videoId) {
      return Err(BAD_REQUEST, "Invalid video ID"), ordered;
    }
    var on := CommentsOn(comments, ObjectIdOf(videoId));
    var total := |on|;
    var n := ValueOr(limit, DEFAULT_LIMIT);
    var skip := (ValueOr(page, DEFAULT_PAGE) - 1) * n;
    if skip < 0 {
      return Err(SERVER_ERROR, QUERY_REJECTED), ordered;
    }
    var found := Enumerate(on);
    var sorted := SortNewestFirst(found, CreatedAt);
    SortedListing(found, on, CreatedAt);
    ordered := sorted;
    var shown := Window(sorted, skip, FindLimit(n, total));
    WindowOfSorted(sorted, skip, FindLimit(n, total), CreatedAt);
    r := Ok(OK, CommentPage(shown, total));
  }

  /** The Comment collection, changed in place by add, update and delete. */
  class CommentStore {
    var comments: map<Id, Comment>

    ghost predicate Valid()
      reads this
    {
      KeyedById(comments)
    }

    constructor ()
      ensures Valid() && comments == map[]
    {
      comments := map[];
    }

    /** addComment: 400 on a malformed video id or blank text; otherwise a
        new comment on the video, owned by the caller, with the text as given. */
    method AddComment(videoId: string, text: Option<string>, actor: Id, newId: Id, now: int)
      returns (r: Response<Comment>)
      requires Valid()
      requires newId !in comments
      modifies this
      ensures Valid()
      ensures !IsValidObjectId(videoId) ==> r == Err(BAD_REQUEST, "Invalid video ID") && comments == old(comments)
      ensures IsValidObjectId(videoId) && IsBlankText(text) ==>
        r == Err(BAD_REQUEST, "Comment text is required") && comments == old(comments)
      ensures IsValidObjectId(videoId) && !IsBlankText(text) ==>
        var c := Comment(newId, ObjectIdOf(videoId), actor, text.value, now);
        && r == Ok(CREATED, c)
        && comments == old(comments)[newId := c]
    {
      if !IsValidObjectId(videoId) {
        return Err(BAD_REQUEST, "Invalid video ID");
      }
      if !Truthy(text) || Trim(text.value) == "" {
        return Err(BAD_REQUEST, "Comment text is required");
      }
      var c := Comment(newId, ObjectIdOf(videoId), actor, text.value, now);
      comments := comments[newId := c];
      r := Ok(CREATED, c);
    }

    /** updateComment: 400 on a malformed id, then 404 when absent, then 403
        when the caller is not the owner, and only then 400 on blank text;
        success changes the content and nothing else. */
    method UpdateComment(commentId: string, text: Option<string>, actor: Id) returns (r: Response<Comment>)
      requires Valid()
      modifies this
      ensures Valid()
      ensures r.Err? ==> comments == old(comments)
      ensures !IsValidObjectId(commentId) ==> r == Err(BAD_REQUEST, "Invalid comment ID")
      ensures IsValidObjectId(commentId) ==>
        var k := ObjectIdOf(commentId);
        if k !in old(comments) then r == Err(NOT_FOUND, "Comment not found")
        else if old(comments)[k].owner != actor then
          r == Err(FORBIDDEN, "You are not authorized to update this comment")
        else if IsBlankText(text) then r == Err(BAD_REQUEST, "Comment text is required")
        else
          var updated := old(comments)[k].(content := text.value);
          r == Ok(OK, updated) && comments == old(comments)[k := updated]
    {
      if !IsValidObjectId(commentId) {
        return Err(BAD_REQUEST, "Invalid comment ID");
      }
      var k := ObjectIdOf(commentId);
      if k !in comments {
        return Err(NOT_FOUND, "Comment not found");
      }
      var comment := comments[k];
      if comment.owner != actor {
        return Err(FORBIDDEN, "You are not authorized to update this comment");
      }
      if !Truthy(text) || Trim(text.value) == "" {
        return Err(BAD_REQUEST, "Comment text is required");
      }
      comment := comment.(content := text.value);
      comments := comments[k := comment];
      r := Ok(OK, comment);
    }

    /** deleteComment: the same 400/404/403 gates; success removes that one comment. */
    method DeleteComment(commentId: string, actor: Id) returns (r: Response<()>)
      requires Valid()
      modifies this
      ensures Valid()
      ensures r.Err? ==> comments == old(comments)
      ensures !IsValidObjectId(commentId) ==> r == Err(BAD_REQUEST, "Invalid comment ID")
      ensures IsValidObjectId(commentId) ==>
        var k := ObjectIdOf(commentId);
        if k !in old(comments) then r == Err(NOT_FOUND, "Comment not found")
        else if old(comments)[k].owner != actor then
          r == Err(FORBIDDEN, "You are not authorized to delete this comment")
        else r == Ok(OK, ()) && comments == old(comments) - {k}
    {
      if !IsValidObjectId(commentId) {
        return Err(BAD_REQUEST, "Invalid comment ID");
      }
      var k := ObjectIdOf(commentId);
      if k !in comments {
        return Err(NOT_FOUND, "Comment not found");
      }
      if comments[k].owner != actor {
        return Err(FORBIDDEN, "You are not authorized to delete this comment");
      }
      comments := comments - {k};
      r := Ok(OK, ());
    }
  }

  /** Adding a comment raises its video's total by one and leaves every
      other video's total as it was. */
  lemma AddCommentCounts(comments: map<Id, Comment>, c: Comment, video: Id)
    requires KeyedById(comments) && c.id !in comments
    ensures |CommentsOn(comments[c.id := c], video)| == |CommentsOn(comments, video)| + (if c.video == video then 1 else 0)
  {
    forall j | j in comments ensures comments[j] != c {
      assert comments[j].id == j;
    }
    ValuesAfterInsert(comments, c.id, c);
    var after := comments[c.id := c];
    if c.video == video {
      assert CommentsOn(after, video) == CommentsOn(comments, video) + {c};
    } else {
      assert CommentsOn(after, video) == CommentsOn(comments, video);
    }
  }

  /** Deleting a comment lowers its video's total by one and leaves every
      other video's total as it was. */
  lemma DeleteCommentCounts(comments: map<Id, Comment>, k: Id, video: Id)
    requires KeyedById(comments) && k in comments
    ensures |CommentsOn(comments - {k}, video)| == |CommentsOn(comments, video)| - (if comments[k].video == video then 1 else 0)
  {
    var c := comments[k];
    var after := comments - {k};
    forall j | j in after ensures after[j] != c {
      assert after[j].id == j;
    }
    ValuesAfterRemove(comments, k);
    if c.video == video {
      assert CommentsOn(comments, video) == CommentsOn(after, video) + {c};
    } else {
      assert CommentsOn(after, video) == CommentsOn(comments, video);
    }
  }
}
