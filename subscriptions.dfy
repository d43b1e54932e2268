/** The Subscription handlers: toggle a subscription, list a channel's
    subscribers, list the caller's channels, and ask whether a channel is followed. */
module SubscriptionController {
  import opened Common
  import opened Entities
  import opened Listing

  /** At most one Subscription per (channel, subscriber) pair. */
  ghost predicate AtMostOnePerPair(subs: set<Subscription>) {
    forall a, b :: a in subs && b in subs && a.channel == b.channel && a.subscriber == b.subscriber ==> a == b
  }

  /** No user subscribes to their own channel. */
  ghost predicate NoSelfSubscription(subs: set<Subscription>) {
    forall s | s in subs :: s.channel != s.subscriber
  }

  predicate IsSubscribed(subs: set<Subscription>, channel: Id, subscriber: Id) {
    exists s :: s in subs && s.channel == channel && s.subscriber == subscriber
  }

  /** `{ channel: id }`: the subscriptions to a channel. */
  function SubscribersOf(subs: set<Subscription>, channel: Id): set<Subscription> {
    set s | s in subs && s.channel == channel
  }

  /** `{ subscriber: id }`: the subscriptions a user holds. */
  function SubscriptionsBy(subs: set<Subscription>, subscriber: Id): set<Subscription> {
    set s | s in subs && s.subscriber == subscriber
  }

  /** The store after toggling the pair: its record removed if present,
      otherwise a new one added. */
  function Toggled(subs: set<Subscription>, channel: Id, subscriber: Id, newId: Id): (r: set<Subscription>)
    ensures IsSubscribed(r, channel, subscriber) <==> !IsSubscribed(subs, channel, subscriber)
    ensures forall s: Subscription :: !(s.channel == channel && s.subscriber == subscriber) ==> (s in r <==> s in subs)
    ensures !IsSubscribed(subs, channel, subscriber) ==> r == subs + {Subscription(newId, channel, subscriber)}
  {
    if IsSubscribed(subs, channel, subscriber) then
      set s | s in subs && !(s.channel == channel && s.subscriber == subscriber)
    else subs + {Subscription(newId, channel, subscriber)}
  }

  /** The (channel, subscriber) pairs present, forgetting record ids. */
  function PairsOf(subs: set<Subscription>): set<(Id, Id)> {
    set s | s in subs :: (s.channel, s.subscriber)
  }

  /** Toggling the same pair twice restores the set of subscribed pairs; when
      the pair started unsubscribed it restores the store exactly. */
  lemma ToggleTwice(subs: set<Subscription>, channel: Id, subscriber: Id, id1: Id, id2: Id)
    ensures PairsOf(Toggled(Toggled(subs, channel, subscriber, id1), channel, subscriber, id2)) == PairsOf(subs)
    ensures !IsSubscribed(subs, channel, subscriber) ==>
      Toggled(Toggled(subs, channel, subscriber, id1), channel, subscriber, id2) == subs
  {
    var once := Toggled(subs, channel, subscriber, id1);
    var twice := Toggled(once, channel, subscriber, id2);
    if IsSubscribed(subs, channel, subscriber) {
      var s :| s in subs && s.channel == channel && s.subscriber == subscriber;
      assert twice == once + {Subscription(id2, channel, subscriber)};
      forall p | p in PairsOf(subs) ensures p in PairsOf(twice) {
        var m :| m in subs && p == (m.channel, m.subscriber);
        if m.channel == channel && m.subscriber == subscriber {
          assert Subscription(id2, channel, subscriber) in twice;
        } else {
          assert m in twice;
        }
      }
      forall p | p in PairsOf(twice) ensures p in PairsOf(subs) {
        var m :| m in twice && p == (m.channel, m.subscriber);
        if m.channel == channel && m.subscriber == subscriber {
          assert (s.channel, s.subscriber) == p;
        } else {
          assert m in subs;
        }
      }
    } else {
      assert IsSubscribed(once, channel, subscriber);
      assert twice == subs;
    }
  }

  /** Toggling keeps the store's two rules, provided the pair is not a self-subscription. */
  lemma ToggleKeepsRules(subs: set<Subscription>, channel: Id, subscriber: Id, newId: Id)
    requires AtMostOnePerPair(subs) && NoSelfSubscription(subs)
    requires channel != subscriber
    ensures AtMostOnePerPair(Toggled(subs, channel, subscriber, newId))
    ensures NoSelfSubscription(Toggled(subs, channel, subscriber, newId))
  {
  }

  /** A toggle moves the channel's subscriber count and the subscriber's
      subscription count by exactly one, in the same direction. */
  lemma {:induction false} ToggleMovesCounts(subs: set<Subscription>, channel: Id, subscriber: Id, newId: Id)
    requires AtMostOnePerPair(subs)
    ensures var after := Toggled(subs, channel, subscriber, newId);
            var d := if IsSubscribed(subs, channel, subscriber) then -1 else 1;
            && |SubscribersOf(after, channel)| == |SubscribersOf(subs, channel)| + d
            && |SubscriptionsBy(after, subscriber)| == |SubscriptionsBy(subs, subscriber)| + d
  {
    var after := Toggled(subs, channel, subscriber, newId);
    if IsSubscribed(subs, channel, subscriber) {
      var s :| s in subs && s.channel == channel && s.subscriber == subscriber;
      assert SubscribersOf(after, channel) == SubscribersOf(subs, channel) - {s};
      assert SubscriptionsBy(after, subscriber) == SubscriptionsBy(subs, subscriber) - {s};
    } else {
      var added := Subscription(newId, channel, subscriber);
      assert added !in subs;
      assert SubscribersOf(after, channel) == SubscribersOf(subs, channel) + {added};
      assert SubscriptionsBy(after, subscriber) == SubscriptionsBy(subs, subscriber) + {added};
    }
  }

  /** The self-subscription guard as written: `channelId === subscriberId`
      compares the request string with the caller's id string. */
  predicate IsSelfAsWritten(channelId: string, subscriberId: Id) {
    channelId == subscriberId
  }

  /** The guard as intended: compares the ObjectId the request string denotes,
      which is what the store records. */
  predicate IsSelf(channelId: string, subscriberId: Id) {
    ObjectIdOf(channelId) == subscriberId
  }

  /** toggleSubscription's effect on the store with the guard as written. */
  function ToggleAsWritten(subs: set<Subscription>, channelId: string, subscriberId: Id, newId: Id): set<Subscription> {
    if !IsValidObjectId(channelId) || IsSelfAsWritten(channelId, subscriberId) then subs
    else Toggled(subs, ObjectIdOf(channelId), subscriberId, newId)
  }

  /** The guard as written lets a user subscribe to their own channel by
      spelling their id with upper-case digits: the spelling is valid and
      denotes the caller's ObjectId, yet differs from it as a string. */
  lemma SelfGuardBypass(channelId: string, newId: Id)
    requires IsValidObjectId(channelId) && channelId != ObjectIdOf(channelId)
    ensures !IsSelfAsWritten(channelId, ObjectIdOf(channelId))
    ensures !NoSelfSubscription(ToggleAsWritten({}, channelId, ObjectIdOf(channelId), newId))
  {
    var own := ObjectIdOf(channelId);
    assert Subscription(newId, own, own) in ToggleAsWritten({}, channelId, own, newId);
  }

  /** Such a spelling exists. */
  lemma SelfGuardBypassWitness()
    ensures var upper := seq(24, i => if i == 22 then 'A' else '0');
            IsValidObjectId(upper) && upper != ObjectIdOf(upper)
  {
    var upper := seq(24, i => if i == 22 then 'A' else '0');
    assert IsValidObjectId(upper);
    var lower := ObjectIdOf(upper);
    assert lower[22] == LowerChar(upper[22]) == 'a';
  }

  /** The Subscription collection, updated in place by toggleSubscription. */
  class SubscriptionStore {
    var subs: set<Subscription>

    ghost predicate Valid()
      reads this
    {
      AtMostOnePerPair(subs) && NoSelfSubscription(subs)
    }

    constructor ()
      ensures Valid() && subs == {}
    {
      subs := {};
    }

    /** toggleSubscription, with the self-subscription guard comparing the
        ObjectId: 400 on a malformed id or a self-subscription, 200 after
        deleting the existing record, 201 with the record it creates. */
    method ToggleSubscription(channelId: string, subscriber: Id, newId: Id) returns (r: Response<Option<Subscription>>)
      requires Valid()
      modifies this
      ensures Valid()
      ensures !IsValidObjectId(channelId) ==> r == Err(BAD_REQUEST, "Invalid channel ID") && subs == old(subs)
      ensures IsValidObjectId(channelId) && IsSelf(channelId, subscriber) ==>
        r == Err(BAD_REQUEST, "You cannot subscribe to yourself") && subs == old(subs)
      ensures IsValidObjectId(channelId) && !IsSelf(channelId, subscriber) ==>
        var c := ObjectIdOf(channelId);
        && subs == Toggled(old(subs), c, subscriber, newId)
        && r == if IsSubscribed(old(subs), c, subscriber) then Ok(OK, None)
                else Ok(CREATED, Some(Subscription(newId, c, subscriber)))
    {
      if !IsValidObjectId(channelId) {
        return Err(BAD_REQUEST, "Invalid channel ID");
      }
      var c := ObjectIdOf(channelId);
      if c == subscriber {
        return Err(BAD_REQUEST, "You cannot subscribe to yourself");
      }
      if s :| s in subs && s.channel == c && s.subscriber == subscriber {
        subs := subs - {s};
        r := Ok(OK, None);
      } else {
        var created := Subscription(newId, c, subscriber);
        subs := subs + {created};
        r := Ok(CREATED, Some(created));
      }
    }
  }

  /** isChannelFollowed: a read-only existence check. */
  function IsChannelFollowed(subs: set<Subscription>, channelId: string, user: Id): (r: Response<bool>)
    ensures !IsValidObjectId(channelId) <==> r == Err(BAD_REQUEST, "Invalid channel ID")
    ensures IsValidObjectId(channelId) ==> r.Ok?
    ensures r.Ok? ==> r.status == OK && (r.data <==> IsSubscribed(subs, ObjectIdOf(channelId), user))
  {
    if !IsValidObjectId(channelId) then Err(BAD_REQUEST, "Invalid channel ID")
    else Ok(OK, IsSubscribed(subs, ObjectIdOf(channelId), user))
  }

  /** A row of getUserChannelSubscribers: the subscription, the populated
      subscriber and how many channels that subscriber follows. */
  datatype SubscriberRow = SubscriberRow(subscription: Subscription, subscriber: UserCard, subscriptionsCount: nat)

  /** A row of getSubscribedChannels: the subscription, the populated channel
      and that channel's subscriber count. */
  datatype ChannelRow = ChannelRow(subscription: Subscription, channel: UserCard, subscribersCount: nat)

  /** What `subscriber.subscriber._id` throws when populate found no user. */
  const NULL_READ := "Cannot read properties of null (reading '_id')"

  /** getUserChannelSubscribers: one row per subscription to the channel,
      each annotated with its subscriber's own subscription count. */
  method GetUserChannelSubscribers(subs: set<Subscription>, users: map<Id, User>, channelId: string)
    returns (r: Response<seq<SubscriberRow>>)
    ensures !IsValidObjectId(channelId) ==> r == Err(BAD_REQUEST, "Invalid channel ID")
    ensures IsValidObjectId(channelId) ==>
      var found := SubscribersOf(subs, ObjectIdOf(channelId));
      && (r.Ok? <==> forall s | s in found :: s.subscriber in users)
      && (!r.Ok? ==> r == Err(SERVER_ERROR, NULL_READ))
      && (r.Ok? ==>
        && r.status == OK
        && |r.data| == |found|
        && Distinct(r.data)
        && (forall s | s in found :: exists i :: 0 <= i < |r.data| && r.data[i].subscription == s)
        && (forall i | 0 <= i < |r.data| ::
              var s := r.data[i].subscription;
              && s in found
              && r.data[i].subscriber == CardOf(users[s.subscriber])
              && r.data[i].subscriptionsCount == |SubscriptionsBy(subs, s.subscriber)|))
  {
    if !IsValidObjectId(channelId) {
      return Err(BAD_REQUEST, "Invalid channel ID");
    }
    ghost var matching := SubscribersOf(subs, ObjectIdOf(channelId));
    var found := Enumerate(SubscribersOf(subs, ObjectIdOf(channelId)));
    var rows: seq<SubscriberRow> := [];
    var i := 0;
    while i < |found|
      invariant 0 <= i <= |found|
      invariant |rows| == i
      invariant forall k | 0 <= k < i :: found[k].subscriber in users
      invariant forall k | 0 <= k < i ::
        rows[k] == SubscriberRow(found[k], CardOf(users[found[k].subscriber]), |SubscriptionsBy(subs, found[k].subscriber)|)
    {
      var s := found[i];
      if s.subscriber !in users {
        assert s in matching;
        return Err(SERVER_ERROR, NULL_READ);
      }
      rows := rows + [SubscriberRow(s, CardOf(users[s.subscriber]), |SubscriptionsBy(subs, s.subscriber)|)];
      i := i + 1;
    }
    forall s | s in matching ensures s.subscriber in users && exists k :: 0 <= k < |rows| && rows[k].subscription == s {
      var k :| 0 <= k < |found| && found[k] == s;
      assert rows[k].subscription == s;
    }
    forall a, b | 0 <= a < b < |rows| ensures rows[a] != rows[b] {
      assert found[a] != found[b];
    }
    r := Ok(OK, rows);
  }

  /** getSubscribedChannels: one row per subscription the caller holds, each
      annotated with that channel's subscriber count. */
  method GetSubscribedChannels(subs: set<Subscription>, users: map<Id, User>, user: Id)
    returns (r: Response<seq<ChannelRow>>)
    ensures var found := SubscriptionsBy(subs, user);
      && (r.Ok? <==> forall s | s in found :: s.channel in users)
      && (!r.Ok? ==> r == Err(SERVER_ERROR, NULL_READ))
      && (r.Ok? ==>
        && r.status == OK
        && |r.data| == |found|
        && Distinct(r.data)
        && (forall s | s in found :: exists i :: 0 <= i < |r.data| && r.data[i].subscription == s)
        && (forall i | 0 <= i < |r.data| ::
              var s := r.data[i].subscription;
              && s in found
              && r.data[i].channel == CardOf(users[s.channel])
              && r.data[i].subscribersCount == |SubscribersOf(subs, s.channel)|))
  {
    ghost var matching := SubscriptionsBy(subs, user);
    var found := Enumerate(SubscriptionsBy(subs, user));
    var rows: seq<ChannelRow> := [];
    var i := 0;
    while i < |found|
      invariant 0 <= i <= |found|
      invariant |rows| == i
      invariant forall k | 0 <= k < i :: found[k].channel in users
      invariant forall k | 0 <= k < i ::
        rows[k] == ChannelRow(found[k], CardOf(users[found[k].channel]), |SubscribersOf(subs, found[k].channel)|)
    {
      var s := found[i];
      if s.channel !in users {
        assert s in matching;
        return Err(SERVER_ERROR, NULL_READ);
      }
      rows := rows + [ChannelRow(s, CardOf(users[s.channel]), |SubscribersOf(subs, s.channel)|)];
      i := i + 1;
    }
    forall s | s in matching ensures s.channel in users && exists k :: 0 <= k < |rows| && rows[k].subscription == s {
      var k :| 0 <= k < |found| && found[k] == s;
      assert rows[k].subscription == s;
    }
    forall a, b | 0 <= a < b < |rows| ensures rows[a] != rows[b] {
      assert found[a] != found[b];
    }
    r := Ok(OK, rows);
  }
}
