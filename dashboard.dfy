/** The Dashboard handlers: a channel's subscriber, like and view totals, and
    a paged, newest-first list of its videos with their like counts. Neither
    changes any collection. */
module DashboardController {
  import opened Common
  import opened Entities
  import opened Listing
  import LikeController
  import SubscriptionController
  import opened VideoController

  /** `{ owner: channel }`: the channel's videos. */
  function ChannelVideos(videos: map<Id, Video>, channel: Id): set<Video> {
    set v | v in videos.Values && v.owner == channel
  }

  /** The ids of the channel's videos, as `.select("_id")` yields them. */
  function ChannelVideoIds(videos: map<Id, Video>, channel: Id): set<Id> {
    set v | v in ChannelVideos(videos, channel) :: v.id
  }

  /** `{ video: { $in: ids } }`: the likes on any of the channel's videos. */
  function ChannelLikes(likes: set<Like>, videos: map<Id, Video>, channel: Id): set<Like> {
    set l | l in likes && l.target.OnVideo? && l.target.video in ChannelVideoIds(videos, channel)
  }

  /** The sum of `f` over a set, in no particular order. */
  ghost function Sum(xs: set<Video>, f: Video -> nat): nat
  {
    if xs == {} then 0 else var x :| x in xs; f(x) + Sum(xs - {x}, f)
  }

  /** Any element may be taken out first: the sum does not depend on the order. */
  lemma {:induction false} SumRemove(xs: set<Video>, f: Video -> nat, x: Video)
    requires x in xs
    ensures Sum(xs, f) == f(x) + Sum(xs - {x}, f)
    decreases |xs|
  {
    var y :| y in xs && Sum(xs, f) == f(y) + Sum(xs - {y}, f);
    if y != x {
      SumRemove(xs - {y}, f, x);
      SumRemove(xs - {x}, f, y);
      assert xs - {y} - {x} == xs - {x} - {y};
    }
  }

  /** `$sum: { $ifNull: ["$views", 0] }` over a set of videos. */
  ghost function TotalViews(vs: set<Video>): nat {
    Sum(vs, ViewsOf)
  }

  /** The like count getChannelVideos shows for a video. */
  function LikesCountOf(likes: set<Like>, v: Video): nat {
    |LikeController.LikesOnVideo(likes, v.id)|
  }

  datatype ChannelStats = ChannelStats(totalSubscribers: nat, totalLikes: nat, totalViews: nat)

  /** getChannelStats: 400 on a malformed id; otherwise the number of
      subscriptions to the channel, the number of likes on its videos and the
      sum of its videos' views, a missing count being 0 and a channel without
      videos having 0 views. */
  method GetChannelStats(subs: set<Subscription>, likes: set<Like>, videos: map<Id, Video>, channelId: string)
    returns (r: Response<ChannelStats>)
    ensures !IsValidObjectId(channelId) ==> r == Err(BAD_REQUEST, "Invalid channel ID")
    ensures IsValidObjectId(channelId) ==>
      var c := ObjectIdOf(channelId);
      r == Ok(OK, ChannelStats(|SubscriptionController.SubscribersOf(subs, c)|,
                               |ChannelLikes(likes, videos, c)|,
                               TotalViews(ChannelVideos(videos, c))))
    ensures IsValidObjectId(channelId) && ChannelVideos(videos, ObjectIdOf(channelId)) == {} ==>
      r.Ok? && r.data.totalViews == 0
  {
    if !IsValidObjectId(channelId) {
      return Err(BAD_REQUEST, "Invalid channel ID");
    }
    var c := ObjectIdOf(channelId);
    var totalSubscribers := |SubscriptionController.SubscribersOf(subs, c)|;
    var totalLikes := |ChannelLikes(likes, videos, c)|;
    ghost var all := ChannelVideos(videos, c);
    var rest := ChannelVideos(videos, c);
    var totalViews := 0;
    while rest != {}
      invariant rest <= all
      invariant totalViews + TotalViews(rest) == TotalViews(all)
      decreases |rest|
    {
      var v :| v in rest;
      SumRemove(rest, ViewsOf, v);
      totalViews := totalViews + ViewsOf(v);
      rest := rest - {v};
    }
    r := Ok(OK, ChannelStats(totalSubscribers, totalLikes, totalViews));
  }

  /** One view of one of the channel's videos raises the channel's total
      views by exactly one. */
  lemma ViewCountRaisesChannelTotal(videos: map<Id, Video>, k: Id)
    requires KeyedById(videos) && k in videos
    ensures var v := videos[k];
            var after := videos[k := ViewCounted(v)];
            TotalViews(ChannelVideos(after, v.owner)) == TotalViews(ChannelVideos(videos, v.owner)) + 1
  {
    var v := videos[k];
    var w := ViewCounted(v);
    var after := videos[k := w];
    var before := ChannelVideos(videos, v.owner);
    var now := ChannelVideos(after, v.owner);
    forall x | x in before - {v} ensures x in now && x != w {
      var j :| j in videos && videos[j] == x;
      assert x.id == j && j != k;
      assert after[j] == x;
    }
    forall x | x in now - {w} ensures x in before {
      var j :| j in after && after[j] == x;
      assert j != k;
      assert videos[j] == x;
    }
    assert after[k] == w;
    assert now - {w} == before - {v};
    SumRemove(before, ViewsOf, v);
    SumRemove(now, ViewsOf, w);
  }

  /** The likes on a set of videos with distinct ids. */
  function LikesOnAny(likes: set<Like>, vs: set<Video>): set<Like> {
    set l | l in likes && l.target.OnVideo? && exists v :: v in vs && v.id == l.target.video
  }

  /** Over videos with distinct ids, the likes on any of them number the sum
      of each one's like count. */
  lemma {:induction false} LikesAddUp(likes: set<Like>, vs: set<Video>)
    requires forall a, b | a in vs && b in vs && a.id == b.id :: a == b
    ensures |LikesOnAny(likes, vs)| == Sum(vs, v => LikesCountOf(likes, v))
    decreases |vs|
  {
    var f := v => LikesCountOf(likes, v);
    if vs == {} {
      assert LikesOnAny(likes, vs) == {};
    } else {
      var x :| x in vs;
      SumRemove(vs, f, x);
      LikesAddUp(likes, vs - {x});
      var mine := LikeController.LikesOnVideo(likes, x.id);
      var others := LikesOnAny(likes, vs - {x});
      assert LikesOnAny(likes, vs) == mine + others;
      forall l | l in mine ensures l !in others {
        forall v | v in vs - {x} ensures v.id != l.target.video {
        }
      }
      assert mine * others == {};
    }
  }

  /** totalLikes of getChannelStats is the sum of the likesCount values that
      getChannelVideos shows over all the channel's videos. */
  lemma TotalLikesIsSumOfCounts(likes: set<Like>, videos: map<Id, Video>, channel: Id)
    requires KeyedById(videos)
    ensures |ChannelLikes(likes, videos, channel)| == Sum(ChannelVideos(videos, channel), v => LikesCountOf(likes, v))
  {
    var vs := ChannelVideos(videos, channel);
    forall a, b | a in vs && b in vs && a.id == b.id ensures a == b {
      var i :| i in videos && videos[i] == a;
      var j :| j in videos && videos[j] == b;
      assert i == a.id && j == b.id;
    }
    assert ChannelLikes(likes, videos, channel) == LikesOnAny(likes, vs);
    LikesAddUp(likes, vs);
  }

  function VideoCreatedAt(v: Video): int {
    v.createdAt
  }

  /** A row of getChannelVideos: the video and its like count. */
  datatype ChannelVideo = ChannelVideo(video: Video, likesCount: nat)

  /** getChannelVideos: 400 on a malformed id; a negative skip or a limit that
      is not positive is refused by the database; otherwise the channel's
      videos newest first, skipping `(page-1)*limit` and keeping at most
      `limit`, each with its like count, where an absent page is 1 and an
      absent limit 10. */
  method GetChannelVideos(likes: set<Like>, videos: map<Id, Video>, channelId: string, page: Option<int>, limit: Option<int>)
    returns (r: Response<seq<ChannelVideo>>, ghost ordered: seq<Video>)
    ensures !IsValidObjectId(channelId) ==> r == Err(BAD_REQUEST, "Invalid channel ID")
    ensures var n := ValueOr(limit, DEFAULT_LIMIT);
      IsValidObjectId(channelId) && ((ValueOr(page, DEFAULT_PAGE) - 1) * n < 0 || n <= 0) ==>
      r == Err(SERVER_ERROR, QUERY_REJECTED)
    ensures var n := ValueOr(limit, DEFAULT_LIMIT);
      IsValidObjectId(channelId) && (ValueOr(page, DEFAULT_PAGE) - 1) * n >= 0 && n > 0 ==>
      var shown := Window(ordered, (ValueOr(page, DEFAULT_PAGE) - 1) * n, n);
      && IsListing(ordered, ChannelVideos(videos, ObjectIdOf(channelId)))
      && NewestFirst(ordered, VideoCreatedAt)
      && r.Ok? && r.status == OK
      && |r.data| == |shown|
      && (forall i | 0 <= i < |r.data| :: r.data[i] == ChannelVideo(shown[i], LikesCountOf(likes, shown[i])))
    ensures IsValidObjectId(channelId) && page.None? && limit.None? ==>
      r.Ok? && |r.data| == |Window(ordered, 0, 10)|
  {
    ordered := [];
    if !IsValidObjectId(channelId) {
      return Err(BAD_REQUEST, "Invalid channel ID"), ordered;
    }
    var n := ValueOr(limit, DEFAULT_LIMIT);
    var skip := (ValueOr(page, DEFAULT_PAGE) - 1) * n;
    if skip < 0 || n <= 0 {
      return Err(SERVER_ERROR, QUERY_REJECTED), ordered;
    }
    var mine := ChannelVideos(videos, ObjectIdOf(channelId));
    var found := Enumerate(mine);
    var sorted := SortNewestFirst(found, VideoCreatedAt);
    SortedListing(found, mine, VideoCreatedAt);
    ordered := sorted;
    var shown := Window(sorted, skip, n);
    var rows := seq(|shown|, i requires 0 <= i < |shown| => ChannelVideo(shown[i], LikesCountOf(likes, shown[i])));
    r := Ok(OK, rows);
  }
}
