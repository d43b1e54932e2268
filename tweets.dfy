/** The Tweet handlers: create, list a user's tweets, and update or delete
    through a query that matches the tweet's id and its owner together. */
module TweetController {
  import opened Common
  import opened Entities
  import opened Listing

  /** Every stored tweet sits under its own id. */
  ghost predicate KeyedById(tweets: map<Id, Tweet>) {
    forall k | k in tweets :: tweets[k].id == k
  }

  /** `{ owner: id }`: the tweets a user owns. */
  function TweetsBy(tweets: map<Id, Tweet>, owner: Id): set<Tweet> {
    set t | t in tweets.Values && t.owner == owner
  }

  /** `{ _id: id, owner: actor }`: whether the query that update and delete
      run finds a document. A missing tweet and someone else's tweet are the
      same miss. */
  predicate OwnedBy(tweets: map<Id, Tweet>, k: Id, actor: Id) {
    k in tweets && tweets[k].owner == actor
  }

  /** A tweet as getUserTweets returns it: its owner populated, or null when
      the owner no longer exists. */
  datatype TweetRow = TweetRow(tweet: Tweet, owner: Option<UserCard>)

  /** getUserTweets: 400 on a malformed id; otherwise every tweet the user
      owns, each once, with the owner's card. */
  method GetUserTweets(tweets: map<Id, Tweet>, users: map<Id, User>, userId: string)
    returns (r: Response<seq<TweetRow>>)
    ensures !IsValidObjectId(userId) ==> r == Err(BAD_REQUEST, "Invalid user ID")
    ensures IsValidObjectId(userId) ==>
      var owner := ObjectIdOf(userId);
      var card := if owner in users then Some(CardOf(users[owner])) else None;
      && r.Ok? && r.status == OK
      && |r.data| == |TweetsBy(tweets, owner)|
      && (forall i | 0 <= i < |r.data| :: r.data[i].tweet in TweetsBy(tweets, owner) && r.data[i].owner == card)
      && (forall t | t in TweetsBy(tweets, owner) :: exists i :: 0 <= i < |r.data| && r.data[i].tweet == t)
      && Distinct(r.data)
  {
    if !IsValidObjectId(userId) {
      return Err(BAD_REQUEST, "Invalid user ID");
    }
    var owner := ObjectIdOf(userId);
    var card := if owner in users then Some(CardOf(users[owner])) else None;
    var found := Enumerate(TweetsBy(tweets, owner));
    var rows := seq(|found|, i requires 0 <= i < |found| => TweetRow(found[i], card));
    forall t | t in TweetsBy(tweets, owner) ensures exists i :: 0 <= i < |rows| && rows[i].tweet == t {
      var i :| 0 <= i < |found| && found[i] == t;
      assert rows[i].tweet == t;
    }
    forall i, j | 0 <= i < j < |rows| ensures rows[i] != rows[j] {
      assert found[i] != found[j];
    }
    r := Ok(OK, rows);
  }

  /** The Tweet collection, changed in place by create, update and delete. */
  class TweetStore {
    var tweets: map<Id, Tweet>

    ghost predicate Valid()
      reads this
    {
      KeyedById(tweets)
    }

    constructor ()
      ensures Valid() && tweets == map[]
    {
      tweets := map[];
    }

    /** createTweet: 400 on missing or empty content (white space passes);
        otherwise a new tweet owned by the caller with the content as given. */
    method CreateTweet(content: Option<string>, actor: Id, newId: Id, now: int) returns (r: Response<Tweet>)
      requires Valid()
      requires newId !in tweets
      modifies this
      ensures Valid()
      ensures !Truthy(content) ==> r == Err(BAD_REQUEST, "Tweet content is required") && tweets == old(tweets)
      ensures Truthy(content) ==>
        var t := Tweet(newId, actor, content.value, now);
        r == Ok(CREATED, t) && tweets == old(tweets)[newId := t]
    {
      if !Truthy(content) {
        return Err(BAD_REQUEST, "Tweet content is required");
      }
      var t := Tweet(newId, actor, content.value, now);
      tweets := tweets[newId := t];
      r := Ok(CREATED, t);
    }

    /** updateTweet: 400 on a malformed id; 404 unless the caller owns the
        tweet; otherwise `$set: { content }`, where an absent content is
        dropped and leaves the tweet as it was. */
    method UpdateTweet(tweetId: string, content: Option<string>, actor: Id) returns (r: Response<Tweet>)
      requires Valid()
      modifies this
      ensures Valid()
      ensures r.Err? ==> tweets == old(tweets)
      ensures !IsValidObjectId(tweetId) ==> r == Err(BAD_REQUEST, "Invalid tweet ID")
      ensures IsValidObjectId(tweetId) ==>
        var k := ObjectIdOf(tweetId);
        if !OwnedBy(old(tweets), k, actor) then r == Err(NOT_FOUND, "Tweet not found or unauthorized")
        else
          var updated := old(tweets)[k].(content := ValueOr(content, old(tweets)[k].content));
          r == Ok(OK, updated) && tweets == old(tweets)[k := updated]
    {
      if !IsValidObjectId(tweetId) {
        return Err(BAD_REQUEST, "Invalid tweet ID");
      }
      var k := ObjectIdOf(tweetId);
      if !(k in tweets && tweets[k].owner == actor) {
        return Err(NOT_FOUND, "Tweet not found or unauthorized");
      }
      var t := tweets[k];
      if content.Some? {
        t := t.(content := content.value);
      }
      tweets := tweets[k := t];
      r := Ok(OK, t);
    }

    /** deleteTweet: 400 on a malformed id; 404 unless the caller owns the
        tweet; otherwise that one tweet is removed. */
    method DeleteTweet(tweetId: string, actor: Id) returns (r: Response<()>)
      requires Valid()
      modifies this
      ensures Valid()
      ensures r.Err? ==> tweets == old(tweets)
      ensures !IsValidObjectId(tweetId) ==> r == Err(BAD_REQUEST, "Invalid tweet ID")
      ensures IsValidObjectId(tweetId) ==>
        var k := ObjectIdOf(tweetId);
        if !OwnedBy(old(tweets), k, actor) then r == Err(NOT_FOUND, "Tweet not found or unauthorized")
        else r == Ok(OK, ()) && tweets == old(tweets) - {k}
    {
      if !IsValidObjectId(tweetId) {
        return Err(BAD_REQUEST, "Invalid tweet ID");
      }
      var k := ObjectIdOf(tweetId);
      if !(k in tweets && tweets[k].owner == actor) {
        return Err(NOT_FOUND, "Tweet not found or unauthorized");
      }
      tweets := tweets - {k};
      r := Ok(OK, ());
    }
  }

  /** A tweet created by the caller joins exactly the caller's list of tweets. */
  lemma CreatedTweetListed(tweets: map<Id, Tweet>, t: Tweet, owner: Id)
    requires KeyedById(tweets) && t.id !in tweets
    ensures t.owner == owner ==> TweetsBy(tweets[t.id := t], owner) == TweetsBy(tweets, owner) + {t}
    ensures t.owner != owner ==> TweetsBy(tweets[t.id := t], owner) == TweetsBy(tweets, owner)
    ensures t !in TweetsBy(tweets, owner)
  {
    forall j | j in tweets ensures tweets[j] != t {
      assert tweets[j].id == j;
    }
    ValuesAfterInsert(tweets, t.id, t);
  }
}
