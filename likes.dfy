/** The Like handlers: toggle a like on a video, comment or tweet, ask whether
    a video is liked, and list the videos a user liked. */
module LikeController {
  import opened Common
  import opened Entities
  import opened Listing

  /** The store's uniqueness rule: at most one Like per (target, user) pair. */
  ghost predicate AtMostOnePerPair(likes: set<Like>) {
    forall a, b :: a in likes && b in likes && a.target == b.target && a.likedBy == b.likedBy ==> a == b
  }

  /** Whether `user` likes `t`: a record for the pair exists. */
  predicate HasLike(likes: set<Like>, t: Target, user: Id) {
    exists l :: l in likes && l.target == t && l.likedBy == user
  }

  /** The (target, user) pairs present, forgetting record ids and timestamps. */
  function PairsOf(likes: set<Like>): set<(Target, Id)> {
    set l | l in likes :: (l.target, l.likedBy)
  }

  /** The Likes on one video, as `{ video: id }` selects them. */
  function LikesOnVideo(likes: set<Like>, video: Id): set<Like> {
    set l | l in likes && l.target == OnVideo(video)
  }

  /** The store after toggling the pair: the pair's record removed if present,
      otherwise a new record for it added. */
  function Toggled(likes: set<Like>, t: Target, user: Id, newId: Id, now: int): (r: set<Like>)
    ensures HasLike(r, t, user) <==> !HasLike(likes, t, user)
    ensures forall l: Like :: !(l.target == t && l.likedBy == user) ==> (l in r <==> l in likes)
    ensures !HasLike(likes, t, user) ==> r == likes + {Like(newId, t, user, now)}
  {
    if HasLike(likes, t, user) then set l | l in likes && !(l.target == t && l.likedBy == user)
    else likes + {Like(newId, t, user, now)}
  }

  /** Toggling keeps at most one record per pair. */
  lemma ToggleKeepsOnePerPair(likes: set<Like>, t: Target, user: Id, newId: Id, now: int)
    requires AtMostOnePerPair(likes)
    ensures AtMostOnePerPair(Toggled(likes, t, user, newId, now))
  {
  }

  /** Toggling the same pair twice restores the set of liked pairs; when the
      pair started unliked it restores the store exactly. */
  lemma ToggleTwice(likes: set<Like>, t: Target, user: Id, id1: Id, now1: int, id2: Id, now2: int)
    ensures PairsOf(Toggled(Toggled(likes, t, user, id1, now1), t, user, id2, now2)) == PairsOf(likes)
    ensures !HasLike(likes, t, user) ==> Toggled(Toggled(likes, t, user, id1, now1), t, user, id2, now2) == likes
  {
    var once := Toggled(likes, t, user, id1, now1);
    var twice := Toggled(once, t, user, id2, now2);
    if HasLike(likes, t, user) {
      var l :| l in likes && l.target == t && l.likedBy == user;
      assert twice == once + {Like(id2, t, user, now2)};
      forall p | p in PairsOf(likes) ensures p in PairsOf(twice) {
        var m :| m in likes && p == (m.target, m.likedBy);
        if m.target == t && m.likedBy == user {
          assert Like(id2, t, user, now2) in twice;
        } else {
          assert m in twice;
        }
      }
      forall p | p in PairsOf(twice) ensures p in PairsOf(likes) {
        var m :| m in twice && p == (m.target, m.likedBy);
        if m.target == t && m.likedBy == user {
          assert (l.target, l.likedBy) == p;
        } else {
          assert m in likes;
        }
      }
    } else {
      assert HasLike(once, t, user);
      assert twice == set l | l in once && !(l.target == t && l.likedBy == user);
      assert twice == likes;
    }
  }

  /** Toggling a like on a video moves that video's like count by exactly one. */
  lemma {:induction false} ToggleMovesVideoCount(likes: set<Like>, video: Id, user: Id, newId: Id, now: int)
    requires AtMostOnePerPair(likes)
    ensures var after := LikesOnVideo(Toggled(likes, OnVideo(video), user, newId, now), video);
            |after| == if HasLike(likes, OnVideo(video), user) then |LikesOnVideo(likes, video)| - 1
                       else |LikesOnVideo(likes, video)| + 1
  {
    var t := OnVideo(video);
    var before := LikesOnVideo(likes, video);
    var after := LikesOnVideo(Toggled(likes, t, user, newId, now), video);
    if HasLike(likes, t, user) {
      var l :| l in likes && l.target == t && l.likedBy == user;
      assert after == before - {l};
    } else {
      var added := Like(newId, t, user, now);
      assert added !in likes;
      assert after == before + {added};
    }
  }

  /** The Like collection, updated in place by the toggle handlers. */
  class LikeStore {
    var likes: set<Like>

    ghost predicate Valid()
      reads this
    {
      AtMostOnePerPair(likes)
    }

    constructor ()
      ensures Valid() && likes == {}
    {
      likes := {};
    }

    /** Look the pair up; delete its record if found, otherwise insert one.
        Returns the inserted record, if any. */
    method Toggle(t: Target, user: Id, newId: Id, now: int) returns (created: Option<Like>)
      requires Valid()
      modifies this
      ensures Valid()
      ensures likes == Toggled(old(likes), t, user, newId, now)
      ensures created == if HasLike(old(likes), t, user) then None else Some(Like(newId, t, user, now))
    {
      if l :| l in likes && l.target == t && l.likedBy == user {
        likes := likes - {l};
        created := None;
      } else {
        var like := Like(newId, t, user, now);
        likes := likes + {like};
        created := Some(like);
      }
    }

    /** toggleVideoLike: 400 on a malformed id; 200 after removing the
        existing like, 201 after creating one. */
    method ToggleVideoLike(videoId: string, user: Id, newId: Id, now: int) returns (r: Response<Option<Like>>)
      requires Valid()
      modifies this
      ensures Valid()
      ensures !IsValidObjectId(videoId) ==> r == Err(BAD_REQUEST, "Invalid video ID") && likes == old(likes)
      ensures IsValidObjectId(videoId) ==>
        var t := OnVideo(ObjectIdOf(videoId));
        && likes == Toggled(old(likes), t, user, newId, now)
        && r == Ok(if HasLike(old(likes), t, user) then OK else CREATED, None)
    {
      if !IsValidObjectId(videoId) {
        return Err(BAD_REQUEST, "Invalid video ID");
      }
      var created := Toggle(OnVideo(ObjectIdOf(videoId)), user, newId, now);
      r := Ok(if created.None? then OK else CREATED, None);
    }

    /** toggleCommentLike: as for videos; a creation returns the new record. */
    method ToggleCommentLike(commentId: string, user: Id, newId: Id, now: int) returns (r: Response<Option<Like>>)
      requires Valid()
      modifies this
      ensures Valid()
      ensures !IsValidObjectId(commentId) ==> r == Err(BAD_REQUEST, "Invalid comment ID") && likes == old(likes)
      ensures IsValidObjectId(commentId) ==>
        var t := OnComment(ObjectIdOf(commentId));
        && likes == Toggled(old(likes), t, user, newId, now)
        && r == if HasLike(old(likes), t, user) then Ok(OK, None)
                else Ok(CREATED, Some(Like(newId, t, user, now)))
    {
      if !IsValidObjectId(commentId) {
        return Err(BAD_REQUEST, "Invalid comment ID");
      }
      var created := Toggle(OnComment(ObjectIdOf(commentId)), user, newId, now);
      r := Ok(if created.None? then OK else CREATED, created);
    }

    /** toggleTweetLike: as for comments. */
    method ToggleTweetLike(tweetId: string, user: Id, newId: Id, now: int) returns (r: Response<Option<Like>>)
      requires Valid()
      modifies this
      ensures Valid()
      ensures !IsValidObjectId(tweetId) ==> r == Err(BAD_REQUEST, "Invalid tweet ID") && likes == old(likes)
      ensures IsValidObjectId(tweetId) ==>
        var t := OnTweet(ObjectIdOf(tweetId));
        && likes == Toggled(old(likes), t, user, newId, now)
        && r == if HasLike(old(likes), t, user) then Ok(OK, None)
                else Ok(CREATED, Some(Like(newId, t, user, now)))
    {
      if !IsValidObjectId(tweetId) {
        return Err(BAD_REQUEST, "Invalid tweet ID");
      }
      var created := Toggle(OnTweet(ObjectIdOf(tweetId)), user, newId, now);
      r := Ok(if created.None? then OK else CREATED, created);
    }
  }

  /** isVideoLiked: a read-only existence check for the (video, user) pair. */
  function IsVideoLiked(likes: set<Like>, videoId: string, user: Id): (r: Response<bool>)
    ensures !IsValidObjectId(videoId) <==> r == Err(BAD_REQUEST, "Invalid video ID")
    ensures IsValidObjectId(videoId) ==> r.Ok?
    ensures r.Ok? ==> r.status == OK && (r.data <==> HasLike(likes, OnVideo(ObjectIdOf(videoId)), user))
  {
    if !IsValidObjectId(videoId) then Err(BAD_REQUEST, "Invalid video ID")
    else Ok(OK, HasLike(likes, OnVideo(ObjectIdOf(videoId)), user))
  }

  /** After a successful toggle, isVideoLiked gives the opposite answer. */
  lemma ToggleFlipsIsVideoLiked(likes: set<Like>, videoId: string, user: Id, newId: Id, now: int)
    requires IsValidObjectId(videoId)
    ensures var after := Toggled(likes, OnVideo(ObjectIdOf(videoId)), user, newId, now);
            IsVideoLiked(after, videoId, user).data == !IsVideoLiked(likes, videoId, user).data
  {
  }

  /** A row of getLikedVideos: the liked video, its uploader and the like's time. */
  datatype LikedVideo = LikedVideo(video: Video, uploader: UserCard, likedAt: int)

  function LikedAt(row: LikedVideo): int {
    row.likedAt
  }

  /** The rows the pipeline produces before sorting: one per video Like of
      `user` whose video and uploader both still exist (`$unwind` drops the rest). */
  function LikedRows(likes: set<Like>, videos: map<Id, Video>, users: map<Id, User>, user: Id): set<LikedVideo> {
    set l | l in likes && l.likedBy == user && l.target.OnVideo? && l.target.video in videos
                       && videos[l.target.video].owner in users
          :: LikedVideo(videos[l.target.video], CardOf(users[videos[l.target.video].owner]), l.createdAt)
  }

  /** getLikedVideos: the caller's liked videos that still exist, newest like first. */
  method GetLikedVideos(likes: set<Like>, videos: map<Id, Video>, users: map<Id, User>, user: Id)
    returns (r: Response<seq<LikedVideo>>)
    requires forall k | k in videos :: videos[k].id == k
    ensures r.Ok? && r.status == OK
    ensures IsListing(r.data, LikedRows(likes, videos, users, user))
    ensures NewestFirst(r.data, LikedAt)
    ensures forall row | row in r.data ::
      && row.video.id in videos && videos[row.video.id] == row.video
      && exists l :: l in likes && l.likedBy == user && l.target == OnVideo(row.video.id) && l.createdAt == row.likedAt
    ensures forall l | l in likes && l.likedBy == user && l.target.OnVideo? && l.target.video in videos
                       && videos[l.target.video].owner in users ::
      exists row :: row in r.data && row.video == videos[l.target.video] && row.likedAt == l.createdAt
  {
    var rows := Enumerate(LikedRows(likes, videos, users, user));
    var sorted := SortNewestFirst(rows, LikedAt);
    ghost var all := LikedRows(likes, videos, users, user);
    SortedListing(rows, all, LikedAt);
    forall l | l in likes && l.likedBy == user && l.target.OnVideo? && l.target.video in videos
               && videos[l.target.video].owner in users
      ensures exists row :: row in sorted && row.video == videos[l.target.video] && row.likedAt == l.createdAt
    {
      var v := videos[l.target.video];
      var row := LikedVideo(v, CardOf(users[v.owner]), l.createdAt);
      assert row in all;
      assert row in sorted;
    }
    r := Ok(OK, sorted);
  }
}
