/** The Video handlers: the query getAllVideos builds, publishAVideo's
    validation, getVideoById with its like count and the caller's like, and
    update, delete, publish toggle and view count, none of which checks the
    owner. */
module VideoController {
  import opened Common
  import opened Entities
  import opened LikeController

  /** Every stored video sits under its own id. */
  ghost predicate KeyedById(videos: map<Id, Video>) {
    forall k | k in videos :: videos[k].id == k
  }

  /** The listing getAllVideos asks for: an optional owner filter and title
      search, the sort key and direction, and the page and page size. */
  datatype VideoQuery = VideoQuery(
    owner: Option<Id>,
    titleSearch: Option<string>,
    sortBy: string,
    ascending: bool,
    page: int,
    limit: int)

  /** getAllVideos' query from the request's query string; `page` and `limit`
      arrive already parsed. Absent parameters take their defaults (page 1,
      limit 10, sort by createdAt, descending). */
  function AllVideosQuery(page: Option<int>, limit: Option<int>, query: Option<string>,
                          sortBy: Option<string>, sortType: Option<string>, userId: Option<string>): (q: VideoQuery)
    ensures q.owner.Some? <==> Truthy(userId) && IsValidObjectId(userId.value)
    ensures q.owner.Some? ==> q.owner.value == ObjectIdOf(userId.value)
    ensures q.titleSearch.Some? <==> Truthy(query)
    ensures q.ascending <==> sortType == Some("asc")
    ensures sortBy.None? ==> q.sortBy == "createdAt"
    ensures sortBy.Some? ==> q.sortBy == sortBy.value
    ensures page.None? ==> q.page == 1
    ensures limit.None? ==> q.limit == 10
    ensures page.Some? ==> q.page == page.value
    ensures limit.Some? ==> q.limit == limit.value
  {
    VideoQuery(
      if Truthy(userId) && IsValidObjectId(userId.value) then Some(ObjectIdOf(userId.value)) else None,
      if Truthy(query) then query else None,
      ValueOr(sortBy, "createdAt"),
      ValueOr(sortType, "desc") == "asc",
      ValueOr(page, 1),
      ValueOr(limit, 10))
  }

  /** Whether a video passes the query's owner filter. */
  predicate MatchesOwner(q: VideoQuery, v: Video) {
    q.owner.None? || v.owner == q.owner.value
  }

  /** A malformed or missing userId filters nothing: every video passes,
      while a valid one keeps exactly that owner's videos. */
  lemma OwnerFilterOnlyWhenValid(page: Option<int>, limit: Option<int>, query: Option<string>,
                                 sortBy: Option<string>, sortType: Option<string>, userId: Option<string>, v: Video)
    ensures var q := AllVideosQuery(page, limit, query, sortBy, sortType, userId);
            MatchesOwner(q, v) <==> !(Truthy(userId) && IsValidObjectId(userId.value)) || v.owner == ObjectIdOf(userId.value)
  {
  }

  /** publishAVideo's checks before any upload. */
  datatype PublishCheck = Proceed(videoPath: string, thumbnailPath: string) | Reject(status: int, message: string)

  /** publishAVideo up to the uploads: 400 unless the title and description
      are present and non-empty, then 400 unless a video file and then a
      thumbnail were uploaded. */
  function ValidatePublish(title: Option<string>, description: Option<string>, files: Files): (r: PublishCheck)
    ensures r.Proceed? <==>
      && Truthy(title) && Truthy(description)
      && Truthy(FirstPath(files, "videoFile")) && Truthy(FirstPath(files, "thumbnail"))
    ensures !Truthy(title) || !Truthy(description) ==> r == Reject(BAD_REQUEST, "Title and description are required")
    ensures Truthy(title) && Truthy(description) && !Truthy(FirstPath(files, "videoFile")) ==>
      r == Reject(BAD_REQUEST, "Video file is required")
    ensures Truthy(title) && Truthy(description) && Truthy(FirstPath(files, "videoFile"))
            && !Truthy(FirstPath(files, "thumbnail")) ==>
      r == Reject(BAD_REQUEST, "Thumbnail is required")
    ensures r.Proceed? ==>
      Some(r.videoPath) == FirstPath(files, "videoFile") && Some(r.thumbnailPath) == FirstPath(files, "thumbnail")
  {
    if !Truthy(title) || !Truthy(description) then Reject(BAD_REQUEST, "Title and description are required")
    else
      var videoPath := FirstPath(files, "videoFile");
      var thumbnailPath := FirstPath(files, "thumbnail");
      if !Truthy(videoPath) then Reject(BAD_REQUEST, "Video file is required")
      else if !Truthy(thumbnailPath) then Reject(BAD_REQUEST, "Thumbnail is required")
      else Proceed(videoPath.value, thumbnailPath.value)
  }

  /** What getVideoById returns: the video, its uploader's card (null when the
      uploader is gone), its like count and whether the caller likes it. */
  datatype VideoDetails = VideoDetails(video: Video, uploader: Option<UserCard>, likesCount: nat, isLikedByCurrentUser: bool)

  /** getVideoById: 400 on a malformed id, 404 when absent; otherwise the
      video with its like count and the caller's like, which is false when
      there is no caller. Nothing is changed. */
  function GetVideoById(videos: map<Id, Video>, users: map<Id, User>, likes: set<Like>, videoId: string, viewer: Option<Id>)
    : (r: Response<VideoDetails>)
    ensures !IsValidObjectId(videoId) <==> r == Err(BAD_REQUEST, "Invalid video ID")
    ensures IsValidObjectId(videoId) && ObjectIdOf(videoId) !in videos ==> r == Err(NOT_FOUND, "Video not found")
    ensures r.Ok? <==> IsValidObjectId(videoId) && ObjectIdOf(videoId) in videos
    ensures r.Ok? ==>
      var k := ObjectIdOf(videoId);
      && r.status == OK
      && r.data.video == videos[k]
      && r.data.likesCount == |LikesOnVideo(likes, k)|
      && (r.data.isLikedByCurrentUser <==> viewer.Some? && HasLike(likes, OnVideo(k), viewer.value))
      && (r.data.uploader.Some? <==> videos[k].owner in users)
      && (r.data.uploader.Some? ==> r.data.uploader.value == CardOf(users[videos[k].owner]))
  {
    if !IsValidObjectId(videoId) then Err(BAD_REQUEST, "Invalid video ID")
    else
      var k := ObjectIdOf(videoId);
      var liked := if viewer.Some? then HasLike(likes, OnVideo(k), viewer.value) else false;
      if k !in videos then Err(NOT_FOUND, "Video not found")
      else
        var v := videos[k];
        var uploader := if v.owner in users then Some(CardOf(users[v.owner])) else None;
        Ok(OK, VideoDetails(v, uploader, |LikesOnVideo(likes, k)|, liked))
  }

  /** A like toggle by the viewer shows up in getVideoById: the viewer's like
      flips and the like count moves by one in the same direction. */
  lemma ToggleLikeShowsInDetails(videos: map<Id, Video>, users: map<Id, User>, likes: set<Like>,
                                 videoId: string, viewer: Id, newId: Id, now: int)
    requires AtMostOnePerPair(likes)
    requires IsValidObjectId(videoId) && ObjectIdOf(videoId) in videos
    ensures var before := GetVideoById(videos, users, likes, videoId, Some(viewer)).data;
            var after := GetVideoById(videos, users, Toggled(likes, OnVideo(ObjectIdOf(videoId)), viewer, newId, now),
                                      videoId, Some(viewer)).data;
            && after.isLikedByCurrentUser == !before.isLikedByCurrentUser
            && after.likesCount == if before.isLikedByCurrentUser then before.likesCount - 1 else before.likesCount + 1
  {
    ToggleMovesVideoCount(likes, ObjectIdOf(videoId), viewer, newId, now);
  }

  /** A video with its publish flag flipped. */
  function PublishFlipped(v: Video): (r: Video)
    ensures r.isPublished == !v.isPublished
    ensures r.(isPublished := v.isPublished) == v
  {
    v.(isPublished := !v.isPublished)
  }

  /** Flipping twice restores the video. */
  lemma PublishFlippedTwice(v: Video)
    ensures PublishFlipped(PublishFlipped(v)) == v
  {
  }

  /** A video after `$inc: { views: 1 }`: a missing count starts from 0. */
  function ViewCounted(v: Video): (r: Video)
    ensures ViewsOf(r) == ViewsOf(v) + 1
    ensures r.(views := v.views) == v
  {
    v.(views := Some(ViewsOf(v) + 1))
  }

  /** The Video collection, changed in place by the update, delete, publish
      toggle and view count handlers. */
  class VideoStore {
    var videos: map<Id, Video>

    ghost predicate Valid()
      reads this
    {
      KeyedById(videos)
    }

    constructor ()
      ensures Valid() && videos == map[]
    {
      videos := map[];
    }

    /** updateVideo: 400 on a malformed id, 404 when absent; otherwise each of
        title, description and thumbnail that was supplied replaces the stored
        one (absent ones are dropped from `$set`). Any caller may do this. */
    method UpdateVideo(videoId: string, title: Option<string>, description: Option<string>, thumbnail: Option<string>)
      returns (r: Response<Video>)
      requires Valid()
      modifies this
      ensures Valid()
      ensures r.Err? ==> videos == old(videos)
      ensures !IsValidObjectId(videoId) ==> r == Err(BAD_REQUEST, "Invalid video ID")
      ensures IsValidObjectId(videoId) ==>
        var k := ObjectIdOf(videoId);
        if k !in old(videos) then r == Err(NOT_FOUND, "Video not found")
        else
          var v := old(videos)[k];
          var updated := v.(title := ValueOr(title, v.title),
                            description := ValueOr(description, v.description),
                            thumbnail := ValueOr(thumbnail, v.thumbnail));
          r == Ok(OK, updated) && videos == old(videos)[k := updated]
    {
      if !IsValidObjectId(videoId) {
        return Err(BAD_REQUEST, "Invalid video ID");
      }
      var k := ObjectIdOf(videoId);
      if k !in videos {
        return Err(NOT_FOUND, "Video not found");
      }
      var v := videos[k];
      if title.Some? {
        v := v.(title := title.value);
      }
      if description.Some? {
        v := v.(description := description.value);
      }
      if thumbnail.Some? {
        v := v.(thumbnail := thumbnail.value);
      }
      videos := videos[k := v];
      r := Ok(OK, v);
    }

    /** deleteVideo: 400 on a malformed id, 404 when absent; otherwise removes
        that video record only. Any caller may do this. */
    method DeleteVideo(videoId: string) returns (r: Response<()>)
      requires Valid()
      modifies this
      ensures Valid()
      ensures r.Err? ==> videos == old(videos)
      ensures !IsValidObjectId(videoId) ==> r == Err(BAD_REQUEST, "Invalid video ID")
      ensures IsValidObjectId(videoId) ==>
        var k := ObjectIdOf(videoId);
        if k !in old(videos) then r == Err(NOT_FOUND, "Video not found")
        else r == Ok(OK, ()) && videos == old(videos) - {k}
    {
      if !IsValidObjectId(videoId) {
        return Err(BAD_REQUEST, "Invalid video ID");
      }
      var k := ObjectIdOf(videoId);
      if k !in videos {
        return Err(NOT_FOUND, "Video not found");
      }
      videos := videos - {k};
      r := Ok(OK, ());
    }

    /** togglePublishStatus: 400 on a malformed id, 404 when absent; otherwise
        flips the video's isPublished. Any caller may do this. */
    method TogglePublishStatus(videoId: string) returns (r: Response<Video>)
      requires Valid()
      modifies this
      ensures Valid()
      ensures r.Err? ==> videos == old(videos)
      ensures !IsValidObjectId(videoId) ==> r == Err(BAD_REQUEST, "Invalid video ID")
      ensures IsValidObjectId(videoId) ==>
        var k := ObjectIdOf(videoId);
        if k !in old(videos) then r == Err(NOT_FOUND, "Video not found")
        else r == Ok(OK, PublishFlipped(old(videos)[k])) && videos == old(videos)[k := PublishFlipped(old(videos)[k])]
    {
      if !IsValidObjectId(videoId) {
        return Err(BAD_REQUEST, "Invalid video ID");
      }
      var k := ObjectIdOf(videoId);
      if k !in videos {
        return Err(NOT_FOUND, "Video not found");
      }
      var v := videos[k];
      v := v.(isPublished := !v.isPublished);
      videos := videos[k := v];
      r := Ok(OK, v);
    }

    /** increaseViewCount: 400 on a malformed id, 404 when absent; otherwise
        the view count goes up by exactly one and the new count is returned. */
    method IncreaseViewCount(videoId: string) returns (r: Response<nat>)
      requires Valid()
      modifies this
      ensures Valid()
      ensures r.Err? ==> videos == old(videos)
      ensures !IsValidObjectId(videoId) ==> r == Err(BAD_REQUEST, "Invalid video ID")
      ensures IsValidObjectId(videoId) ==>
        var k := ObjectIdOf(videoId);
        if k !in old(videos) then r == Err(NOT_FOUND, "Video not found")
        else r == Ok(OK, ViewsOf(old(videos)[k]) + 1) && videos == old(videos)[k := ViewCounted(old(videos)[k])]
    {
      if !IsValidObjectId(videoId) {
        return Err(BAD_REQUEST, "Invalid video ID");
      }
      var k := ObjectIdOf(videoId);
      if k !in videos {
        return Err(NOT_FOUND, "Video not found");
      }
      var v := videos[k];
      var views := if v.views.Some? then v.views.value + 1 else 1;
      v := v.(views := Some(views));
      videos := videos[k := v];
      r := Ok(OK, views);
    }
  }
}
