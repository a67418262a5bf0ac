/**
 * The dashboard controller: read-only statistics and the video list of the signed-in channel,
 * as functions of the Video, Subscription and Like collections.
 */
module Dashboard {
  import opened Common
  import opened Seqs
  import Videos
  import Likes
  import Subscriptions

  /** The `stats` object of getChannelStats. */
  datatype Stats = Stats(totalVideos: nat, totalViews: nat, totalSubscribers: nat, totalLikes: nat)

  /** The owner filter on videos: videos owned by the user. */
  function OwnerIs(userId: Id): Videos.Video -> bool {
    (v: Videos.Video) => v.owner == userId
  }

  function OwnedVideos(videos: seq<Videos.Video>, userId: Id): seq<Videos.Video> {
    Filter(videos, OwnerIs(userId))
  }

  /** The count of the videos the user owns. */
  function TotalVideos(videos: seq<Videos.Video>, userId: Id): (n: nat)
    ensures n == |OwnedVideos(videos, userId)|
    ensures n == 0 <==> forall v :: v in videos ==> v.owner != userId
  {
    CountWhereFilter(videos, OwnerIs(userId));
    CountWhere(videos, OwnerIs(userId))
  }

  /** The aggregation that matches the user's videos and sums their views, over the collection in order. */
  function ViewsOwnedBy(videos: seq<Videos.Video>, userId: Id): (n: nat)
    ensures forall i :: 0 <= i < |videos| && videos[i].owner == userId ==> videos[i].views <= n
  {
    if videos == [] then 0
    else ViewsOwnedBy(videos[..|videos| - 1], userId) + (if videos[|videos| - 1].owner == userId then videos[|videos| - 1].views else 0)
  }

  /** With no video of the user the sum is zero. */
  lemma {:induction false} ViewsOwnedByNone(videos: seq<Videos.Video>, userId: Id)
    requires forall v :: v in videos ==> v.owner != userId
    ensures ViewsOwnedBy(videos, userId) == 0
  {
    if videos != [] {
      assert forall v :: v in videos[..|videos| - 1] ==> v in videos;
      ViewsOwnedByNone(videos[..|videos| - 1], userId);
    }
  }

  /**
   * The view total with its fallback to 0: the group stage yields no document when the user has no
   * video, and the fallback then gives 0; otherwise it is the sum, so the result is always the sum.
   */
  function TotalViews(videos: seq<Videos.Video>, userId: Id): (n: nat)
    ensures n == ViewsOwnedBy(videos, userId)
    ensures TotalVideos(videos, userId) == 0 ==> n == 0
  {
    if TotalVideos(videos, userId) == 0 then
      ViewsOwnedByNone(videos, userId);
      0
    else ViewsOwnedBy(videos, userId)
  }

  /** Saving one more video adds its views to its owner's total and nothing to anyone else's. */
  lemma TotalViewsAppend(videos: seq<Videos.Video>, v: Videos.Video, userId: Id)
    ensures TotalViews(videos + [v], userId) == TotalViews(videos, userId) + (if v.owner == userId then v.views else 0)
  {
    assert (videos + [v])[..|videos|] == videos;
  }

  /** The channel filter on subscriptions: subscriptions to the user's channel. */
  function ChannelIs(userId: Id): Subscriptions.Subscription -> bool {
    (s: Subscriptions.Subscription) => s.channel == userId
  }

  /** The count of subscriptions to the channel: as many as the channel's subscriber list. */
  function TotalSubscribers(subs: seq<Subscriptions.Subscription>, userId: Id): (n: nat)
    ensures n == |Subscriptions.SubscribersOf(subs, userId)|
  {
    SubscriberCount(subs, userId);
    CountWhere(subs, ChannelIs(userId))
  }

  lemma {:induction false} SubscriberCount(subs: seq<Subscriptions.Subscription>, userId: Id)
    ensures CountWhere(subs, ChannelIs(userId)) == |Subscriptions.SubscribersOf(subs, userId)|
  {
    if subs != [] {
      SubscriberCount(subs[1..], userId);
    }
  }

  /**
   * A toggle towards the channel moves its subscriber count by one, down when it unsubscribes and
   * up when it subscribes; a toggle towards another channel leaves it alone.
   */
  lemma TotalSubscribersToggle(subs: seq<Subscriptions.Subscription>, s: Subscriptions.Subscription, userId: Id)
    ensures s.channel == userId && s in subs ==>
      TotalSubscribers(Subscriptions.Toggled(subs, s), userId) == TotalSubscribers(subs, userId) - 1
    ensures s.channel == userId && s !in subs ==>
      TotalSubscribers(Subscriptions.Toggled(subs, s), userId) == TotalSubscribers(subs, userId) + 1
    ensures s.channel != userId ==>
      TotalSubscribers(Subscriptions.Toggled(subs, s), userId) == TotalSubscribers(subs, userId)
  {
    var p := ChannelIs(userId);
    match IndexOf(subs, s)
    case Some(i) =>
      CountWhereRemoveAt(subs, i, p);
    case None =>
      CountWhereConcat(subs, [s], p);
  }

  /** The filter the statistics use for likes: `likeableModel: "Video"`, `likeableId` among `ids`. */
  function StatsLikeFilter(ids: seq<Id>): Likes.Like -> bool {
    (l: Likes.Like) => l.likeableModel == Some("Video") && l.likeableId.Some? && l.likeableId.value in ids
  }

  /** `totalLikes` as written: likes whose `likeableModel`/`likeableId` point at one of the user's videos. */
  function TotalLikes(likes: seq<Likes.Like>, videos: seq<Videos.Video>, userId: Id): (n: nat)
    ensures n == |Filter(likes, StatsLikeFilter(Videos.Ids(OwnedVideos(videos, userId))))|
    ensures n <= |likes|
    ensures n == 0 <==> forall l :: l in likes ==>
      !StatsLikeFilter(Videos.Ids(OwnedVideos(videos, userId)))(l)
  {
    CountWhereFilter(likes, StatsLikeFilter(Videos.Ids(OwnedVideos(videos, userId))));
    CountWhere(likes, StatsLikeFilter(Videos.Ids(OwnedVideos(videos, userId))))
  }

  /** On a Like collection built by the like toggles, `totalLikes` is always 0. */
  lemma StatsIgnoreToggledLikes(likes: seq<Likes.Like>, videos: seq<Videos.Video>, userId: Id)
    requires Likes.AllWrittenByToggle(likes)
    ensures TotalLikes(likes, videos, userId) == 0
  {
  }

  /** The filter the corrected count uses: the `video` field that the like toggle writes. */
  function VideoLikeFilter(ids: seq<Id>): Likes.Like -> bool {
    (l: Likes.Like) => l.video.Some? && l.video.value in ids
  }

  /** Likes of the user's videos, read from the field the like toggle writes. */
  function TotalVideoLikes(likes: seq<Likes.Like>, videos: seq<Videos.Video>, userId: Id): (n: nat)
    ensures n == |Filter(likes, VideoLikeFilter(Videos.Ids(OwnedVideos(videos, userId))))|
    ensures n <= |likes|
    ensures n == 0 <==> forall l :: l in likes ==>
      !VideoLikeFilter(Videos.Ids(OwnedVideos(videos, userId)))(l)
  {
    CountWhereFilter(likes, VideoLikeFilter(Videos.Ids(OwnedVideos(videos, userId))));
    CountWhere(likes, VideoLikeFilter(Videos.Ids(OwnedVideos(videos, userId))))
  }

  /**
   * The input that shows the discrepancy: with no likes, one video like toggled on a video of the
   * channel is a like of that video, yet `totalLikes` stays 0 while the corrected count is 1.
   */
  lemma StatsMissToggledVideoLike(videos: seq<Videos.Video>, k: nat, fan: Id)
    requires k < |videos|
    ensures var likes := Likes.Toggled([], Likes.VideoKind, videos[k].id, fan);
      && TotalLikes(likes, videos, videos[k].owner) == 0
      && TotalVideoLikes(likes, videos, videos[k].owner) == 1
  {
    var owned := OwnedVideos(videos, videos[k].owner);
    assert videos[k] in owned;
    var j :| 0 <= j < |owned| && owned[j] == videos[k];
    assert Videos.Ids(owned)[j] == videos[k].id;
    var likes := Likes.Toggled([], Likes.VideoKind, videos[k].id, fan);
    assert likes == [Likes.NewLike(Likes.VideoKind, videos[k].id, fan)];
  }

  /**
   * With the corrected count, liking one of the channel's videos adds one and unliking it
   * removes one.
   */
  lemma VideoLikeToggleCounted(likes: seq<Likes.Like>, videos: seq<Videos.Video>, userId: Id, videoId: Id, fan: Id)
    requires videoId in Videos.Ids(OwnedVideos(videos, userId))
    ensures Likes.FirstMatch(likes, Likes.VideoKind, videoId, fan).None? ==>
      TotalVideoLikes(Likes.Toggled(likes, Likes.VideoKind, videoId, fan), videos, userId) == TotalVideoLikes(likes, videos, userId) + 1
    ensures Likes.FirstMatch(likes, Likes.VideoKind, videoId, fan).Some? ==>
      TotalVideoLikes(Likes.Toggled(likes, Likes.VideoKind, videoId, fan), videos, userId) == TotalVideoLikes(likes, videos, userId) - 1
  {
    var p := VideoLikeFilter(Videos.Ids(OwnedVideos(videos, userId)));
    match Likes.FirstMatch(likes, Likes.VideoKind, videoId, fan)
    case Some(i) =>
      CountWhereRemoveAt(likes, i, p);
    case None =>
      CountWhereConcat(likes, [Likes.NewLike(Likes.VideoKind, videoId, fan)], p);
  }

  /**
   * getChannelStats, as written: the view total is the sum over the channel's videos, a channel
   * without videos has no views, and toggled likes never count.
   */
  function ChannelStats(videos: seq<Videos.Video>, subs: seq<Subscriptions.Subscription>, likes: seq<Likes.Like>, userId: Id): (s: Stats)
    ensures s.totalVideos == |OwnedVideos(videos, userId)|
    ensures s.totalViews == ViewsOwnedBy(videos, userId)
    ensures s.totalVideos == 0 ==> s.totalViews == 0
    ensures s.totalSubscribers == |Subscriptions.SubscribersOf(subs, userId)|
    ensures s.totalLikes == TotalLikes(likes, videos, userId)
    ensures Likes.AllWrittenByToggle(likes) ==> s.totalLikes == 0
  {
    Stats(TotalVideos(videos, userId), TotalViews(videos, userId), TotalSubscribers(subs, userId), TotalLikes(likes, videos, userId))
  }

  /** getChannelStats with `totalLikes` counted on the `video` field. */
  function CorrectedChannelStats(videos: seq<Videos.Video>, subs: seq<Subscriptions.Subscription>, likes: seq<Likes.Like>, userId: Id): (s: Stats)
    ensures s.totalVideos == |OwnedVideos(videos, userId)|
    ensures s.totalViews == ViewsOwnedBy(videos, userId)
    ensures s.totalVideos == 0 ==> s.totalViews == 0 && s.totalLikes == 0
    ensures s.totalSubscribers == |Subscriptions.SubscribersOf(subs, userId)|
    ensures s.totalLikes == TotalVideoLikes(likes, videos, userId)
    ensures s.totalLikes <= |likes|
  {
    Stats(TotalVideos(videos, userId), TotalViews(videos, userId), TotalSubscribers(subs, userId), TotalVideoLikes(likes, videos, userId))
  }

  /** getChannelVideos: every video of the user, newest first. */
  function ChannelVideos(videos: seq<Videos.Video>, userId: Id): (r: seq<Videos.Video>)
    ensures SortedDescending(r, Videos.CreatedAt)
    ensures forall v :: multiset(r)[v] == if v.owner == userId then multiset(videos)[v] else 0
  {
    SortDescending(OwnedVideos(videos, userId), Videos.CreatedAt)
  }
}
