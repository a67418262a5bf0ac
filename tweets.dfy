/** The tweet controller over the Tweet collection. */
module Tweets {
  import opened Common
  import opened Seqs

  datatype Tweet = Tweet(id: Id, content: string, owner: Id, createdAt: int)

  function Ids(ts: seq<Tweet>): (r: seq<Id>)
    ensures |r| == |ts| && forall i :: 0 <= i < |ts| ==> r[i] == ts[i].id
  {
    seq(|ts|, i requires 0 <= i < |ts| => ts[i].id)
  }

  function CreatedAt(t: Tweet): int {
    t.createdAt
  }

  /** The user's tweets, newest first. */
  function TweetsOf(ts: seq<Tweet>, owner: Id): (r: seq<Tweet>)
    ensures SortedDescending(r, CreatedAt)
    ensures forall t :: multiset(r)[t] == if t.owner == owner then multiset(ts)[t] else 0
  {
    SortDescending(Filter(ts, (t: Tweet) => t.owner == owner), CreatedAt)
  }

  class TweetStore {
    var tweets: seq<Tweet>

    ghost predicate Valid()
      reads this
    {
      Distinct(Ids(tweets))
    }

    constructor ()
      ensures Valid() && tweets == []
    {
      tweets := [];
    }

    /** createTweet: 400 for empty or missing content; otherwise a tweet owned by the caller is saved. */
    method CreateTweet(content: Option<string>, caller: Id, newId: Id, now: int) returns (r: Result<Tweet>)
      requires Valid() && newId !in Ids(tweets)
      modifies this
      ensures Valid()
      ensures !Truthy(content) ==> r == Fail(BadRequest) && tweets == old(tweets)
      ensures Truthy(content) ==>
        && r == Ok(Tweet(newId, content.value, caller, now))
        && tweets == old(tweets) + [r.value]
    {
      if !Truthy(content) {
        return Fail(BadRequest);
      }
      var t := Tweet(newId, content.value, caller, now);
      tweets := tweets + [t];
      r := Ok(t);
    }

    /** getUserTweets: 400 for a malformed user id; otherwise every tweet of the user, newest first. */
    function UserTweets(userId: Id): (r: Result<seq<Tweet>>)
      reads this
      ensures !IsValidObjectId(userId) ==> r == Fail(BadRequest)
      ensures IsValidObjectId(userId) ==>
        && r.Ok?
        && SortedDescending(r.value, CreatedAt)
        && forall t :: multiset(r.value)[t] == if t.owner == userId then multiset(tweets)[t] else 0
    {
      if !IsValidObjectId(userId) then Fail(BadRequest) else Ok(TweetsOf(tweets, userId))
    }

    /**
     * updateTweet: 400 for a malformed id, then 404, then 403 for a caller who is not the owner,
     * each with no change; otherwise truthy content replaces the text and anything else keeps it.
     */
    method UpdateTweet(tweetId: Id, caller: Id, content: Option<string>) returns (r: Result<Tweet>)
      requires Valid()
      modifies this
      ensures Valid()
      ensures !IsValidObjectId(tweetId) ==> r == Fail(BadRequest)
      ensures IsValidObjectId(tweetId) && tweetId !in old(Ids(tweets)) ==> r == Fail(NotFound)
      ensures IsValidObjectId(tweetId) && tweetId in old(Ids(tweets)) ==>
        var i := IndexOf(old(Ids(tweets)), tweetId).value;
        && (old(tweets)[i].owner != caller ==> r == Fail(Forbidden))
        && (old(tweets)[i].owner == caller ==>
              && tweets == old(tweets)[i := old(tweets)[i].(content := OrElse(content, old(tweets)[i].content))]
              && r == Ok(tweets[i]))
      ensures r.Fail? ==> tweets == old(tweets)
    {
      if !IsValidObjectId(tweetId) {
        return Fail(BadRequest);
      }
      var found := IndexOf(Ids(tweets), tweetId);
      if found.None? {
        return Fail(NotFound);
      }
      var i := found.value;
      if tweets[i].owner != caller {
        return Fail(Forbidden);
      }
      tweets := tweets[i := tweets[i].(content := OrElse(content, tweets[i].content))];
      assert Ids(tweets) == old(Ids(tweets));
      r := Ok(tweets[i]);
    }

    /** deleteTweet: the same guards in the same order; then only that tweet is removed. */
    method DeleteTweet(tweetId: Id, caller: Id) returns (r: Result<()>)
      requires Valid()
      modifies this
      ensures Valid()
      ensures !IsValidObjectId(tweetId) ==> r == Fail(BadRequest)
      ensures IsValidObjectId(tweetId) && tweetId !in old(Ids(tweets)) ==> r == Fail(NotFound)
      ensures IsValidObjectId(tweetId) && tweetId in old(Ids(tweets)) ==>
        var i := IndexOf(old(Ids(tweets)), tweetId).value;
        && (old(tweets)[i].owner != caller ==> r == Fail(Forbidden))
        && (old(tweets)[i].owner == caller ==>
              r == Ok(()) && tweets == RemoveAt(old(tweets), i) && tweetId !in Ids(tweets))
      ensures r.Fail? ==> tweets == old(tweets)
    {
      if !IsValidObjectId(tweetId) {
        return Fail(BadRequest);
      }
      var found := IndexOf(Ids(tweets), tweetId);
      if found.None? {
        return Fail(NotFound);
      }
      var i := found.value;
      if tweets[i].owner != caller {
        return Fail(Forbidden);
      }
      ghost var ids := Ids(tweets);
      tweets := RemoveAt(tweets, i);
      assert Ids(tweets) == RemoveAt(ids, i);
      RemoveAtDistinct(ids, i);
      r := Ok(());
    }
  }
}
