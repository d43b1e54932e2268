/** The documents of the seven collections. Each content document carries its
    own id; relation documents (Like, Subscription) link an actor to a target. */
module Entities {
  import opened Common

  /** A user document. `password` stands for whatever the model's save hook
      stores; `refreshToken` is the single session slot. */
  datatype User = User(
    id: Id,
    username: string,
    email: string,
    fullname: string,
    password: string,
    avatar: string,
    coverImage: string,
    refreshToken: Option<string>)

  /** The public profile fields a join copies into a view. The joins also name
      a `fullName` field, which user documents do not have (they store
      `fullname`), so it never appears. */
  datatype UserCard = UserCard(username: string, avatar: string)

  function CardOf(u: User): UserCard {
    UserCard(u.username, u.avatar)
  }

  /** A video document; `views` may be missing on a document. */
  datatype Video = Video(
    id: Id,
    owner: Id,
    title: string,
    description: string,
    thumbnail: string,
    videoFile: string,
    views: Option<nat>,
    isPublished: bool,
    createdAt: int)

  /** `$ifNull: ["$views", 0]`. */
  function ViewsOf(v: Video): nat {
    if v.views.Some? then v.views.value else 0
  }

  datatype Comment = Comment(id: Id, video: Id, owner: Id, content: string, createdAt: int)

  datatype Tweet = Tweet(id: Id, owner: Id, content: string, createdAt: int)

  datatype Playlist = Playlist(id: Id, name: string, description: Option<string>, owner: Id, videos: seq<Id>)

  /** A Like refers to exactly one of a video, a comment or a tweet. */
  datatype Target = OnVideo(video: Id) | OnComment(comment: Id) | OnTweet(tweet: Id)

  datatype Like = Like(id: Id, target: Target, likedBy: Id, createdAt: int)

  datatype Subscription = Subscription(id: Id, channel: Id, subscriber: Id)
}
