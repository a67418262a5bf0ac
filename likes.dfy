/** The like controller: one helper toggles a Like document for a (kind, target, user) triple. */
module Likes {
  import opened Common
  import opened Seqs

  /** The `model` argument of `toggleLike`: the field of the Like document that names the target. */
  datatype Kind = VideoKind | CommentKind | TweetKind

  /**
   * A Like document. `toggleLike` writes one target field and `likedBy`; the channel statistics
   * read `likeableModel` and `likeableId`, which no handler here writes.
   */
  datatype Like = Like(
    video: Option<Id>,
    comment: Option<Id>,
    tweet: Option<Id>,
    likedBy: Id,
    likeableModel: Option<string>,
    likeableId: Option<Id>)

  function TargetOf(l: Like, kind: Kind): Option<Id> {
    match kind
    case VideoKind => l.video
    case CommentKind => l.comment
    case TweetKind => l.tweet
  }

  /** The lookup condition: the target field named by the kind holds `id`, and `user` made the like. */
  predicate Matches(l: Like, kind: Kind, id: Id, user: Id) {
    TargetOf(l, kind) == Some(id) && l.likedBy == user
  }

  /** The document a toggle saves: only the kind's target field and the liking user are set. */
  function NewLike(kind: Kind, id: Id, user: Id): (l: Like)
    ensures Matches(l, kind, id, user)
    ensures forall k, t, u :: Matches(l, k, t, u) ==> k == kind && t == id && u == user
    ensures l.likeableModel.None? && l.likeableId.None?
  {
    match kind
    case VideoKind => Like(Some(id), None, None, user, None, None)
    case CommentKind => Like(None, Some(id), None, user, None, None)
    case TweetKind => Like(None, None, Some(id), user, None, None)
  }

  /** A document of the shape `toggleLike` saves: exactly one target field set, nothing else. */
  predicate WrittenByToggle(l: Like) {
    && l.likeableModel.None? && l.likeableId.None?
    && (|| (l.video.Some? && l.comment.None? && l.tweet.None?)
        || (l.video.None? && l.comment.Some? && l.tweet.None?)
        || (l.video.None? && l.comment.None? && l.tweet.Some?))
  }

  /** A toggle-written document matching a triple is the very document a toggle would save for it. */
  lemma WrittenByToggleMatch(l: Like, kind: Kind, id: Id, user: Id)
    requires WrittenByToggle(l) && Matches(l, kind, id, user)
    ensures l == NewLike(kind, id, user)
  {
  }

  predicate AllWrittenByToggle(likes: seq<Like>) {
    forall l :: l in likes ==> WrittenByToggle(l)
  }

  /** The single-document lookup: the first matching document in natural order. */
  function FirstMatch(likes: seq<Like>, kind: Kind, id: Id, user: Id): (r: Option<nat>)
    ensures r.Some? ==> r.value < |likes| && Matches(likes[r.value], kind, id, user)
    ensures r.Some? ==> forall j :: 0 <= j < r.value ==> !Matches(likes[j], kind, id, user)
    ensures r.None? <==> forall j :: 0 <= j < |likes| ==> !Matches(likes[j], kind, id, user)
  {
    if likes == [] then None
    else if Matches(likes[0], kind, id, user) then Some(0)
    else
      match FirstMatch(likes[1..], kind, id, user)
      case None => None
      case Some(k) => Some(k + 1)
  }

  lemma FirstMatchAppend(likes: seq<Like>, l: Like, kind: Kind, id: Id, user: Id)
    requires FirstMatch(likes, kind, id, user).None? && Matches(l, kind, id, user)
    ensures FirstMatch(likes + [l], kind, id, user) == Some(|likes|)
  {
    var r := FirstMatch(likes + [l], kind, id, user);
    assert (likes + [l])[|likes|] == l;
    assert forall j :: 0 <= j < |likes| ==> (likes + [l])[j] == likes[j];
  }

  /** How many documents match the triple. */
  function Count(likes: seq<Like>, kind: Kind, id: Id, user: Id): nat {
    if likes == [] then 0
    else Count(likes[..|likes| - 1], kind, id, user) + (if Matches(likes[|likes| - 1], kind, id, user) then 1 else 0)
  }

  lemma {:induction false} CountConcat(a: seq<Like>, b: seq<Like>, kind: Kind, id: Id, user: Id)
    ensures Count(a + b, kind, id, user) == Count(a, kind, id, user) + Count(b, kind, id, user)
    decreases |b|
  {
    if b == [] {
      assert a + b == a;
    } else {
      assert (a + b)[..|a + b| - 1] == a + b[..|b| - 1];
      CountConcat(a, b[..|b| - 1], kind, id, user);
    }
  }

  lemma {:induction false} CountZero(likes: seq<Like>, kind: Kind, id: Id, user: Id)
    ensures Count(likes, kind, id, user) == 0 <==> FirstMatch(likes, kind, id, user).None?
  {
    if likes != [] {
      var n := |likes| - 1;
      CountZero(likes[..n], kind, id, user);
      assert forall j :: 0 <= j < n ==> likes[..n][j] == likes[j];
    }
  }

  lemma CountRemoveAt(likes: seq<Like>, i: nat, kind: Kind, id: Id, user: Id)
    requires i < |likes|
    ensures Count(likes, kind, id, user) ==
      Count(RemoveAt(likes, i), kind, id, user) + (if Matches(likes[i], kind, id, user) then 1 else 0)
  {
    assert likes == likes[..i] + [likes[i]] + likes[i + 1..];
    assert RemoveAt(likes, i) == likes[..i] + likes[i + 1..];
    CountConcat(likes[..i] + [likes[i]], likes[i + 1..], kind, id, user);
    CountConcat(likes[..i], [likes[i]], kind, id, user);
    CountConcat(likes[..i], likes[i + 1..], kind, id, user);
    assert [likes[i]][..0] == [];
  }

  lemma CountAppend(likes: seq<Like>, l: Like, kind: Kind, id: Id, user: Id)
    ensures Count(likes + [l], kind, id, user) ==
      Count(likes, kind, id, user) + (if Matches(l, kind, id, user) then 1 else 0)
  {
    assert (likes + [l])[..|likes|] == likes;
  }

  /** Sequential toggles keep at most one like per (kind, target, user). */
  ghost predicate AtMostOneLike(likes: seq<Like>) {
    forall k, t, u :: Count(likes, k, t, u) <= 1
  }

  /**
   * The Like collection after a toggle of one (kind, target, user) triple with a well-formed id: the first
   * matching document is deleted if there is one, otherwise a new one is saved at the end.
   */
  function Toggled(likes: seq<Like>, kind: Kind, id: Id, user: Id): (r: seq<Like>)
    ensures FirstMatch(likes, kind, id, user).Some? <==> |r| == |likes| - 1
    ensures FirstMatch(likes, kind, id, user).None? ==> |r| == |likes| + 1
    ensures FirstMatch(likes, kind, id, user).None? ==> FirstMatch(r, kind, id, user) == Some(|likes|)
  {
    match FirstMatch(likes, kind, id, user)
    case Some(i) => RemoveAt(likes, i)
    case None =>
      FirstMatchAppend(likes, NewLike(kind, id, user), kind, id, user);
      likes + [NewLike(kind, id, user)]
  }

  /** Likes of other users or other targets are neither added nor removed. */
  lemma ToggleKeepsOthers(likes: seq<Like>, kind: Kind, id: Id, user: Id)
    ensures forall l :: !Matches(l, kind, id, user) ==>
      multiset(Toggled(likes, kind, id, user))[l] == multiset(likes)[l]
  {
  }

  /** Toggling changes the triple's count by exactly one, down when a like existed and up otherwise. */
  lemma ToggleCount(likes: seq<Like>, kind: Kind, id: Id, user: Id)
    ensures FirstMatch(likes, kind, id, user).Some? ==>
      Count(Toggled(likes, kind, id, user), kind, id, user) == Count(likes, kind, id, user) - 1
    ensures FirstMatch(likes, kind, id, user).None? ==>
      Count(Toggled(likes, kind, id, user), kind, id, user) == 1
  {
    CountZero(likes, kind, id, user);
    match FirstMatch(likes, kind, id, user)
    case Some(i) => CountRemoveAt(likes, i, kind, id, user);
    case None => CountAppend(likes, NewLike(kind, id, user), kind, id, user);
  }

  /** Toggling never raises the count of any other triple. */
  lemma ToggleOtherCounts(likes: seq<Like>, kind: Kind, id: Id, user: Id, k: Kind, t: Id, u: Id)
    requires k != kind || t != id || u != user
    ensures Count(Toggled(likes, kind, id, user), k, t, u) <= Count(likes, k, t, u)
    ensures FirstMatch(likes, kind, id, user).None? ==>
      Count(Toggled(likes, kind, id, user), k, t, u) == Count(likes, k, t, u)
  {
    match FirstMatch(likes, kind, id, user)
    case Some(i) => CountRemoveAt(likes, i, k, t, u);
    case None => CountAppend(likes, NewLike(kind, id, user), k, t, u);
  }

  /** A toggle preserves "at most one like per triple". */
  lemma TogglePreservesAtMostOne(likes: seq<Like>, kind: Kind, id: Id, user: Id)
    requires AtMostOneLike(likes)
    ensures AtMostOneLike(Toggled(likes, kind, id, user))
  {
    CountZero(likes, kind, id, user);
    ToggleCount(likes, kind, id, user);
    forall k, t, u ensures Count(Toggled(likes, kind, id, user), k, t, u) <= 1 {
      if k != kind || t != id || u != user {
        ToggleOtherCounts(likes, kind, id, user, k, t, u);
      }
    }
  }

  /** A toggle only ever saves toggle-shaped documents. */
  lemma TogglePreservesWrittenByToggle(likes: seq<Like>, kind: Kind, id: Id, user: Id)
    requires AllWrittenByToggle(likes)
    ensures AllWrittenByToggle(Toggled(likes, kind, id, user))
  {
  }

  /** The reported `liked` flips on every toggle of a triple that has at most one like. */
  lemma ToggleFlipsLiked(likes: seq<Like>, kind: Kind, id: Id, user: Id)
    requires Count(likes, kind, id, user) <= 1
    ensures FirstMatch(Toggled(likes, kind, id, user), kind, id, user).None? <==>
      FirstMatch(likes, kind, id, user).Some?
  {
    ToggleCount(likes, kind, id, user);
    CountZero(likes, kind, id, user);
    CountZero(Toggled(likes, kind, id, user), kind, id, user);
  }

  /** Toggling twice gives the triple back the count it started with. */
  lemma ToggleTwiceCount(likes: seq<Like>, kind: Kind, id: Id, user: Id)
    requires Count(likes, kind, id, user) <= 1
    ensures Count(Toggled(Toggled(likes, kind, id, user), kind, id, user), kind, id, user) ==
      Count(likes, kind, id, user)
  {
    var once := Toggled(likes, kind, id, user);
    ToggleCount(likes, kind, id, user);
    ToggleCount(once, kind, id, user);
    CountZero(likes, kind, id, user);
    CountZero(once, kind, id, user);
  }

  /** Liking and then unliking restores the table exactly. */
  lemma ToggleTwiceFromUnliked(likes: seq<Like>, kind: Kind, id: Id, user: Id)
    requires FirstMatch(likes, kind, id, user).None?
    ensures Toggled(Toggled(likes, kind, id, user), kind, id, user) == likes
  {
    var once := likes + [NewLike(kind, id, user)];
    FirstMatchAppend(likes, NewLike(kind, id, user), kind, id, user);
    assert RemoveAt(once, |likes|) == likes;
  }

  /**
   * Unliking and then liking again restores the table as a multiset of documents when every
   * document has the toggle's shape; the re-created like is saved at the end.
   */
  lemma ToggleTwiceFromLiked(likes: seq<Like>, kind: Kind, id: Id, user: Id)
    requires Count(likes, kind, id, user) <= 1 && AllWrittenByToggle(likes)
    requires FirstMatch(likes, kind, id, user).Some?
    ensures multiset(Toggled(Toggled(likes, kind, id, user), kind, id, user)) == multiset(likes)
  {
    var i := FirstMatch(likes, kind, id, user).value;
    var once := Toggled(likes, kind, id, user);
    ToggleCount(likes, kind, id, user);
    CountZero(once, kind, id, user);
    WrittenByToggleMatch(likes[i], kind, id, user);
    assert Toggled(once, kind, id, user) == once + [likes[i]];
  }

  class LikeStore {
    var likes: seq<Like>

    constructor ()
      ensures likes == []
    {
      likes := [];
    }

    /**
     * toggleLike: 400 for a malformed target id, with no change; otherwise delete the user's like
     * of the target (`liked: false`) or save a new one (`liked: true`).
     */
    method ToggleLike(kind: Kind, id: Id, user: Id) returns (r: Result<bool>)
      modifies this
      ensures !IsValidObjectId(id) ==> r == Fail(BadRequest) && likes == old(likes)
      ensures IsValidObjectId(id) ==>
        && r == Ok(FirstMatch(old(likes), kind, id, user).None?)
        && likes == Toggled(old(likes), kind, id, user)
    {
      if !IsValidObjectId(id) {
        return Fail(BadRequest);
      }
      var existing := FirstMatch(likes, kind, id, user);
      if existing.Some? {
        likes := likes[..existing.value] + likes[existing.value + 1..];
        r := Ok(false);
      } else {
        likes := likes + [NewLike(kind, id, user)];
        r := Ok(true);
      }
    }

    /** toggleVideoLike: the helper with model `'video'`; the response's `liked` is the helper's. */
    method ToggleVideoLike(videoId: Id, caller: Id) returns (r: Result<bool>)
      modifies this
      ensures !IsValidObjectId(videoId) ==> r == Fail(BadRequest) && likes == old(likes)
      ensures IsValidObjectId(videoId) ==>
        && r == Ok(FirstMatch(old(likes), VideoKind, videoId, caller).None?)
        && likes == Toggled(old(likes), VideoKind, videoId, caller)
    {
      r := ToggleLike(VideoKind, videoId, caller);
    }

    /** toggleCommentLike: the helper with model `'comment'`. */
    method ToggleCommentLike(commentId: Id, caller: Id) returns (r: Result<bool>)
      modifies this
      ensures !IsValidObjectId(commentId) ==> r == Fail(BadRequest) && likes == old(likes)
      ensures IsValidObjectId(commentId) ==>
        && r == Ok(FirstMatch(old(likes), CommentKind, commentId, caller).None?)
        && likes == Toggled(old(likes), CommentKind, commentId, caller)
    {
      r := ToggleLike(CommentKind, commentId, caller);
    }

    /** toggleTweetLike: the helper with model `'tweet'`. */
    method ToggleTweetLike(tweetId: Id, caller: Id) returns (r: Result<bool>)
      modifies this
      ensures !IsValidObjectId(tweetId) ==> r == Fail(BadRequest) && likes == old(likes)
      ensures IsValidObjectId(tweetId) ==>
        && r == Ok(FirstMatch(old(likes), TweetKind, tweetId, caller).None?)
        && likes == Toggled(old(likes), TweetKind, tweetId, caller)
    {
      r := ToggleLike(TweetKind, tweetId, caller);
    }

    /** getLikedVideos: every like the caller made, whatever its kind (the filter is `likedBy` only). */
    function LikedVideos(caller: Id): (r: seq<Like>)
      reads this
      ensures forall l :: multiset(r)[l] == if l.likedBy == caller then multiset(likes)[l] else 0
    {
      Filter(likes, (l: Like) => l.likedBy == caller)
    }
  }

  /** Two toggles in a row answer `liked` true then false, or false then true. */
  method ToggleTwiceAlternates(store: LikeStore, kind: Kind, id: Id, user: Id)
    returns (first: Result<bool>, second: Result<bool>)
    requires IsValidObjectId(id) && Count(store.likes, kind, id, user) <= 1
    modifies store
    ensures first.Ok? && second.Ok? && first.value == !second.value
    ensures FirstMatch(old(store.likes), kind, id, user).None? ==> store.likes == old(store.likes)
  {
    ghost var start := store.likes;
    first := store.ToggleLike(kind, id, user);
    second := store.ToggleLike(kind, id, user);
    ToggleFlipsLiked(start, kind, id, user);
    if FirstMatch(start, kind, id, user).None? {
      ToggleTwiceFromUnliked(start, kind, id, user);
    }
  }
}
