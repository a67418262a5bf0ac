/** The subscription controller over the Subscription collection of (subscriber, channel) pairs. */
module Subscriptions {
  import opened Common
  import opened Seqs

  datatype Subscription = Subscription(subscriber: Id, channel: Id)

  /** What a successful toggle answers: the saved subscription, or that it was removed. */
  datatype Toggle = Subscribed(subscription: Subscription) | Unsubscribed

  /**
   * The Subscription collection after a toggle that passed its guards: the first document for the
   * pair is removed if there is one, otherwise the pair is saved at the end.
   */
  function Toggled(subs: seq<Subscription>, s: Subscription): (r: seq<Subscription>)
    ensures s in subs <==> |r| == |subs| - 1
    ensures s !in subs ==> |r| == |subs| + 1 && s in r
    ensures forall x :: x != s ==> (x in r <==> x in subs)
  {
    match IndexOf(subs, s)
    case Some(i) => RemoveAt(subs, i)
    case None => subs + [s]
  }

  /** A toggle changes the count of its own pair by one and leaves every other pair's count alone. */
  lemma ToggleCounts(subs: seq<Subscription>, s: Subscription)
    ensures s in subs ==> multiset(Toggled(subs, s))[s] == multiset(subs)[s] - 1
    ensures s !in subs ==> multiset(Toggled(subs, s))[s] == 1
    ensures forall x :: x != s ==> multiset(Toggled(subs, s))[x] == multiset(subs)[x]
  {
  }

  /** Sequential toggles keep at most one subscription per (subscriber, channel). */
  lemma TogglePreservesDistinct(subs: seq<Subscription>, s: Subscription)
    requires Distinct(subs)
    ensures Distinct(Toggled(subs, s))
  {
    match IndexOf(subs, s)
    case Some(i) => RemoveAtDistinct(subs, i);
    case None =>
      var t := subs + [s];
      forall i, j | 0 <= i < j < |t| ensures t[i] != t[j] {
        if j == |subs| {
          assert t[i] == subs[i];
        } else {
          assert t[i] == subs[i] && t[j] == subs[j];
        }
      }
  }

  /** Subscribing and then unsubscribing restores the collection exactly. */
  lemma ToggleTwiceFromUnsubscribed(subs: seq<Subscription>, s: Subscription)
    requires s !in subs
    ensures Toggled(Toggled(subs, s), s) == subs
  {
    var once := subs + [s];
    assert IndexOf(once, s) == Some(|subs|) by {
      assert once[..|subs|] == subs;
    }
    assert RemoveAt(once, |subs|) == subs;
  }

  /**
   * Unsubscribing and then subscribing again restores the collection up to order: the pair is
   * saved again at the end.
   */
  lemma ToggleTwiceFromSubscribed(subs: seq<Subscription>, s: Subscription)
    requires Distinct(subs) && s in subs
    ensures multiset(Toggled(Toggled(subs, s), s)) == multiset(subs)
  {
    var i := IndexOf(subs, s).value;
    var once := RemoveAt(subs, i);
    RemoveAtDistinct(subs, i);
    assert Toggled(once, s) == once + [s];
  }

  /** Nobody is subscribed to their own channel. */
  predicate NoSelfSubscription(subs: seq<Subscription>) {
    forall x :: x in subs ==> x.subscriber != x.channel
  }

  /** The subscriber of each subscription to the channel, in collection order. */
  function SubscribersOf(subs: seq<Subscription>, channel: Id): (r: seq<Id>)
    ensures forall u :: multiset(r)[u] == multiset(subs)[Subscription(u, channel)]
  {
    if subs == [] then []
    else
      assert subs == [subs[0]] + subs[1..];
      (if subs[0].channel == channel then [subs[0].subscriber] else []) + SubscribersOf(subs[1..], channel)
  }

  /** The channel of each subscription the subscriber holds, in collection order. */
  function ChannelsOf(subs: seq<Subscription>, subscriber: Id): (r: seq<Id>)
    ensures forall c :: multiset(r)[c] == multiset(subs)[Subscription(subscriber, c)]
  {
    if subs == [] then []
    else
      assert subs == [subs[0]] + subs[1..];
      (if subs[0].subscriber == subscriber then [subs[0].channel] else []) + ChannelsOf(subs[1..], subscriber)
  }

  class SubscriptionStore {
    var subscriptions: seq<Subscription>

    constructor ()
      ensures subscriptions == []
    {
      subscriptions := [];
    }

    /**
     * toggleSubscription: 400 for a malformed channel id, then 400 for subscribing to oneself, both
     * with no change; otherwise unsubscribe if the pair exists, or subscribe.
     */
    method ToggleSubscription(channelId: Id, caller: Id) returns (r: Result<Toggle>)
      modifies this
      ensures !IsValidObjectId(channelId) ==> r == Fail(BadRequest) && subscriptions == old(subscriptions)
      ensures channelId == caller ==> r == Fail(BadRequest) && subscriptions == old(subscriptions)
      ensures IsValidObjectId(channelId) && channelId != caller ==>
        var s := Subscription(caller, channelId);
        && subscriptions == Toggled(old(subscriptions), s)
        && r == (if s in old(subscriptions) then Ok(Unsubscribed) else Ok(Subscribed(s)))
      ensures NoSelfSubscription(old(subscriptions)) ==> NoSelfSubscription(subscriptions)
      ensures Distinct(old(subscriptions)) ==> Distinct(subscriptions)
    {
      if !IsValidObjectId(channelId) {
        return Fail(BadRequest);
      }
      if channelId == caller {
        return Fail(BadRequest);
      }
      var s := Subscription(caller, channelId);
      var existing := IndexOf(subscriptions, s);
      if existing.Some? {
        subscriptions := RemoveAt(subscriptions, existing.value);
        r := Ok(Unsubscribed);
      } else {
        subscriptions := subscriptions + [s];
        r := Ok(Subscribed(s));
      }
      if Distinct(old(subscriptions)) {
        TogglePreservesDistinct(old(subscriptions), s);
      }
    }

    /** getUserChannelSubscribers: one subscriber per subscription to the channel. */
    function ChannelSubscribers(channelId: Id): (r: Result<seq<Id>>)
      reads this
      ensures !IsValidObjectId(channelId) ==> r == Fail(BadRequest)
      ensures IsValidObjectId(channelId) ==>
        r.Ok? && forall u :: multiset(r.value)[u] == multiset(subscriptions)[Subscription(u, channelId)]
    {
      if !IsValidObjectId(channelId) then Fail(BadRequest) else Ok(SubscribersOf(subscriptions, channelId))
    }

    /** getSubscribedChannels: one channel per subscription the subscriber holds. */
    function SubscribedChannels(subscriberId: Id): (r: Result<seq<Id>>)
      reads this
      ensures !IsValidObjectId(subscriberId) ==> r == Fail(BadRequest)
      ensures IsValidObjectId(subscriberId) ==>
        r.Ok? && forall c :: multiset(r.value)[c] == multiset(subscriptions)[Subscription(subscriberId, c)]
    {
      if !IsValidObjectId(subscriberId) then Fail(BadRequest) else Ok(ChannelsOf(subscriptions, subscriberId))
    }
  }

  /** Two toggles of the same channel answer Subscribed then Unsubscribed, or the reverse. */
  method ToggleTwiceAlternates(store: SubscriptionStore, channelId: Id, caller: Id)
    returns (first: Result<Toggle>, second: Result<Toggle>)
    requires IsValidObjectId(channelId) && channelId != caller && Distinct(store.subscriptions)
    modifies store
    ensures first.Ok? && second.Ok? && (first.value == Unsubscribed <==> second.value != Unsubscribed)
    ensures Subscription(caller, channelId) !in old(store.subscriptions) ==>
      store.subscriptions == old(store.subscriptions)
    ensures multiset(store.subscriptions) == multiset(old(store.subscriptions))
  {
    ghost var start := store.subscriptions;
    var s := Subscription(caller, channelId);
    first := store.ToggleSubscription(channelId, caller);
    second := store.ToggleSubscription(channelId, caller);
    ToggleCounts(start, s);
    if s in start {
      ToggleTwiceFromSubscribed(start, s);
      DistinctAtMostOnce(start, s);
    } else {
      ToggleTwiceFromUnsubscribed(start, s);
    }
  }
}
