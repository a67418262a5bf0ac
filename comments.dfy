/**
 * The comment controller over the Comment collection. None of its handlers checks an id before
 * using it, so a malformed id reaches the driver and fails there as a cast error (500).
 */
module Comments {
  import opened Common
  import opened Seqs
  import opened JsText

  /** A Comment document; the two timestamps are kept by the schema. */
  datatype Comment = Comment(id: Id, content: string, video: Id, owner: Id, createdAt: int, updatedAt: int)

  /** The `ownerDetails` sub-document left by the projection. */
  datatype OwnerDetails = OwnerDetails(id: Id, username: string, email: string)

  /** One listed row: `_id` (kept by default), content, timestamps and the owner's public fields. */
  datatype CommentView = CommentView(id: Id, content: string, createdAt: int, updatedAt: int, ownerDetails: OwnerDetails)

  function Ids(cs: seq<Comment>): (r: seq<Id>)
    ensures |r| == |cs| && forall i :: 0 <= i < |cs| ==> r[i] == cs[i].id
  {
    seq(|cs|, i requires 0 <= i < |cs| => cs[i].id)
  }

  // ----- getVideoComments -----

  /** The `$project` stage applied to a comment joined with one owner. */
  function Project(c: Comment, u: User): CommentView {
    CommentView(c.id, c.content, c.createdAt, c.updatedAt, OwnerDetails(u.id, u.username, u.email))
  }

  /** A row determines the comment's id and the whole owner it was joined with. */
  lemma ProjectDetermines(c: Comment, u: User, d: Comment, w: User)
    ensures Project(c, u) == Project(d, w) ==> c.id == d.id && u == w
    ensures Project(c, u).id == c.id && Project(c, u).createdAt == c.createdAt
  {
  }

  /** `v` is the row the join produces for comment `c` and user `u`. */
  predicate Joins(c: Comment, u: User, v: CommentView) {
    u.id == c.owner && v == Project(c, u)
  }

  /** `$lookup` on `owner = _id`: the users whose id is the comment's owner, in collection order. */
  function Lookup(users: seq<User>, c: Comment): (r: seq<User>)
    ensures forall u :: u in r <==> u in users && u.id == c.owner
  {
    Filter(users, (u: User) => u.id == c.owner)
  }

  /** `$unwind` of one comment's lookup, projected: one row per matched user. */
  function Unwind(c: Comment, matched: seq<User>): (r: seq<CommentView>)
    ensures |r| == |matched|
    ensures forall i :: 0 <= i < |r| ==> r[i] == Project(c, matched[i])
  {
    seq(|matched|, i requires 0 <= i < |matched| => Project(c, matched[i]))
  }

  /** The rows one comment yields are exactly its projections with each user who owns it. */
  lemma UnwindRows(c: Comment, users: seq<User>)
    ensures forall v :: v in Unwind(c, Lookup(users, c)) <==> exists u :: u in users && Joins(c, u, v)
  {
    var m := Lookup(users, c);
    var rows := Unwind(c, m);
    forall v | v in rows ensures exists u :: u in users && Joins(c, u, v) {
      var i :| 0 <= i < |rows| && rows[i] == v;
      assert Joins(c, m[i], v);
    }
    forall v, u | u in users && Joins(c, u, v) ensures v in rows {
      assert u in m;
      var i :| 0 <= i < |m| && m[i] == u;
      assert rows[i] == v;
    }
  }

  /**
   * `$lookup`, `$unwind` and `$project` over a run of comments. A row exists exactly for each
   * comment and each user who owns it; a comment whose owner is not a user yields no row.
   */
  function JoinOwners(cs: seq<Comment>, users: seq<User>): (r: seq<CommentView>)
    ensures forall v :: v in r <==> exists c, u :: c in cs && u in users && Joins(c, u, v)
  {
    if cs == [] then []
    else
      var head := Unwind(cs[0], Lookup(users, cs[0]));
      var tail := JoinOwners(cs[1..], users);
      UnwindRows(cs[0], users);
      JoinOwnersCons(cs, users, head, tail);
      head + tail
  }

  lemma JoinOwnersCons(cs: seq<Comment>, users: seq<User>, head: seq<CommentView>, tail: seq<CommentView>)
    requires cs != []
    requires forall v :: v in head <==> exists u :: u in users && Joins(cs[0], u, v)
    requires forall v :: v in tail <==> exists c, u :: c in cs[1..] && u in users && Joins(c, u, v)
    ensures forall v :: v in head + tail <==> exists c, u :: c in cs && u in users && Joins(c, u, v)
  {
    assert cs == [cs[0]] + cs[1..];
    forall v | v in head + tail ensures exists c, u :: c in cs && u in users && Joins(c, u, v) {
      if v in head {
        var u :| u in users && Joins(cs[0], u, v);
        assert cs[0] in cs;
      } else {
        var c, u :| c in cs[1..] && u in users && Joins(c, u, v);
        assert c in cs;
      }
    }
    forall v, c, u | c in cs && u in users && Joins(c, u, v) ensures v in head + tail {
      if c == cs[0] {
        assert v in head;
      } else {
        assert c in cs[1..];
        assert v in tail;
      }
    }
  }

  /** The User collection's unique `_id` index. */
  ghost predicate UniqueUserIds(users: seq<User>) {
    forall i, j :: 0 <= i < j < |users| ==> users[i].id != users[j].id
  }

  /** With unique user ids, a comment's lookup matches at most one user. */
  lemma LookupAtMostOne(users: seq<User>, c: Comment)
    requires UniqueUserIds(users)
    ensures |Lookup(users, c)| <= 1
  {
    var m := Lookup(users, c);
    if m != [] {
      forall i | 0 <= i < |m| ensures m[i] == m[0] {
        assert m[i] in users && m[0] in users;
        var a :| 0 <= a < |users| && users[a] == m[i];
        var b :| 0 <= b < |users| && users[b] == m[0];
        assert users[a].id == users[b].id;
      }
      AllEqualCount(m, m[0]);
      assert Distinct(users);
      DistinctAtMostOnce(users, m[0]);
    }
  }

  /** With distinct ids, two different comments of the collection have different ids. */
  lemma IdsIdentify(cs: seq<Comment>, c: Comment, d: Comment)
    requires Distinct(Ids(cs)) && c in cs && d in cs && c != d
    ensures c.id != d.id
  {
    var a :| 0 <= a < |cs| && cs[a] == c;
    var b :| 0 <= b < |cs| && cs[b] == d;
    assert Ids(cs)[a] != Ids(cs)[b];
  }

  lemma IdsDistinctElements(cs: seq<Comment>)
    requires Distinct(Ids(cs))
    ensures Distinct(cs)
  {
    forall i, j | 0 <= i < j < |cs| ensures cs[i] != cs[j] {
      assert Ids(cs)[i] != Ids(cs)[j];
    }
  }

  /** Keeping some of the comments keeps their ids distinct. */
  lemma FilteredIdsDistinct(cs: seq<Comment>, p: Comment -> bool)
    requires Distinct(Ids(cs))
    ensures Distinct(Ids(Filter(cs, p)))
  {
    var m := Filter(cs, p);
    IdsDistinctElements(cs);
    forall x ensures multiset(m)[x] <= 1 {
      DistinctAtMostOnce(cs, x);
    }
    AtMostOnceDistinct(m);
    forall i, j | 0 <= i < j < |m| ensures Ids(m)[i] != Ids(m)[j] {
      IdsIdentify(cs, m[i], m[j]);
    }
  }

  /** One comment's rows: each carries the comment's id, and with unique user ids there is at most one. */
  lemma UnwindOnce(c: Comment, users: seq<User>)
    requires UniqueUserIds(users)
    ensures forall v :: v in Unwind(c, Lookup(users, c)) ==> v.id == c.id
    ensures forall v :: multiset(Unwind(c, Lookup(users, c)))[v] <= 1
  {
    var head := Unwind(c, Lookup(users, c));
    LookupAtMostOne(users, c);
    assert head == [] || head == [head[0]];
  }

  /** No row of a run of comments carries an id that none of them has. */
  lemma JoinOwnersIds(cs: seq<Comment>, users: seq<User>, id: Id)
    requires id !in Ids(cs)
    ensures forall w :: w in JoinOwners(cs, users) ==> w.id != id
  {
    forall w | w in JoinOwners(cs, users) ensures w.id != id {
      var c, u :| c in cs && u in users && Joins(c, u, w);
      var j :| 0 <= j < |cs| && cs[j] == c;
      assert Ids(cs)[j] == c.id;
    }
  }

  lemma IdsTail(cs: seq<Comment>)
    requires cs != [] && Distinct(Ids(cs))
    ensures Distinct(Ids(cs[1..])) && cs[0].id !in Ids(cs[1..])
  {
    assert Ids(cs[1..]) == Ids(cs)[1..];
    DistinctTail(Ids(cs));
  }

  /**
   * With distinct comment ids and unique user ids the join yields each row at most once: a row
   * carries its comment's id, and each comment has at most one owner to join with.
   */
  lemma {:induction false} JoinOwnersOnce(cs: seq<Comment>, users: seq<User>)
    requires Distinct(Ids(cs)) && UniqueUserIds(users)
    ensures forall v :: multiset(JoinOwners(cs, users))[v] <= 1
  {
    if cs != [] {
      var head := Unwind(cs[0], Lookup(users, cs[0]));
      var tail := JoinOwners(cs[1..], users);
      assert JoinOwners(cs, users) == head + tail;
      IdsTail(cs);
      JoinOwnersOnce(cs[1..], users);
      UnwindOnce(cs[0], users);
      JoinOwnersIds(cs[1..], users, cs[0].id);
      RowsOnceSplit(head, tail, cs[0].id);
    }
  }

  /** Rows of one id held at most once, then rows of other ids held at most once. */
  lemma RowsOnceSplit(head: seq<CommentView>, tail: seq<CommentView>, id: Id)
    requires forall v :: v in head ==> v.id == id
    requires forall w :: w in tail ==> w.id != id
    requires forall v :: multiset(head)[v] <= 1
    requires forall v :: multiset(tail)[v] <= 1
    ensures forall v :: multiset(head + tail)[v] <= 1
  {
    forall v ensures multiset(head + tail)[v] <= 1 {
      assert multiset(head + tail)[v] == multiset(head)[v] + multiset(tail)[v];
      if v in head {
        assert v !in tail;
      }
    }
  }

  /** The `$match` stage: comments on the video. */
  function OnVideo(videoId: Id): Comment -> bool {
    (c: Comment) => c.video == videoId
  }

  function RowCreatedAt(v: CommentView): int {
    v.createdAt
  }

  /**
   * The whole pipeline: the match on the video, the owner join, the projection, then newest first.
   * With distinct comment ids and unique user ids, every row appears exactly once.
   */
  function VideoCommentRows(comments: seq<Comment>, users: seq<User>, videoId: Id): (r: seq<CommentView>)
    ensures SortedDescending(r, RowCreatedAt)
    ensures forall v :: v in r <==>
      exists c, u :: c in comments && c.video == videoId && u in users && Joins(c, u, v)
    ensures Distinct(Ids(comments)) && UniqueUserIds(users) ==> forall v :: multiset(r)[v] <= 1
  {
    var matched := Filter(comments, OnVideo(videoId));
    JoinOnce(comments, users, videoId);
    var rows := JoinOwners(matched, users);
    var sorted := SortDescending(rows, RowCreatedAt);
    assert forall v :: v in sorted <==> v in rows by {
      assert forall v :: v in sorted <==> multiset(sorted)[v] > 0;
    }
    assert forall c :: c in matched <==> c in comments && c.video == videoId;
    sorted
  }

  lemma JoinOnce(comments: seq<Comment>, users: seq<User>, videoId: Id)
    ensures Distinct(Ids(comments)) && UniqueUserIds(users) ==>
      forall v :: multiset(JoinOwners(Filter(comments, OnVideo(videoId)), users))[v] <= 1
  {
    if Distinct(Ids(comments)) && UniqueUserIds(users) {
      FilteredIdsDistinct(comments, OnVideo(videoId));
      JoinOwnersOnce(Filter(comments, OnVideo(videoId)), users);
    }
  }

  /**
   * The inner join drops a comment whose owner is not a user: no listed row carries its id
   * (comment ids being distinct, no other comment carries it either).
   */
  lemma UnownedCommentDropped(comments: seq<Comment>, users: seq<User>, videoId: Id, k: nat)
    requires k < |comments| && Distinct(Ids(comments))
    requires forall u :: u in users ==> u.id != comments[k].owner
    ensures forall v :: v in VideoCommentRows(comments, users, videoId) ==> v.id != comments[k].id
  {
    forall v | v in VideoCommentRows(comments, users, videoId) ensures v.id != comments[k].id {
      var c, u :| c in comments && c.video == videoId && u in users && Joins(c, u, v);
      var j :| 0 <= j < |comments| && comments[j] == c;
      if j != k {
        assert Ids(comments)[j] != Ids(comments)[k];
      }
    }
  }

  /** `parseInt(x)` of a paging value whose default is the number `default`; `None` is `NaN`. */
  function PageOption(given: Option<string>, default: nat): (r: Option<int>)
    ensures given.None? ==> r == Some(default)
    ensures given.Some? ==> r == ParseInt(given.value)
  {
    if given.None? then Some(default) else ParseInt(given.value)
  }

  /** A page or limit sent as the decimal text of a number is read back as that number. */
  lemma PageOptionDecimal(n: nat, default: nat)
    ensures PageOption(Some(DecimalString(n)), default) == Some(n)
  {
    ParseIntDecimal(n);
  }

  /** The aggregation's rows and the `{ page, limit }` options handed to the paginator. */
  datatype CommentListing = CommentListing(rows: seq<CommentView>, page: Option<int>, limit: Option<int>)

  /**
   * The document after an update with `content` and the save: truthy content becomes the text,
   * anything else keeps the old one; the save only writes, and only moves `updatedAt`, when the
   * text actually changed. The id, video, owner and creation time never change.
   */
  function Revised(c: Comment, content: Option<string>, now: int): (d: Comment)
    ensures d.id == c.id && d.video == c.video && d.owner == c.owner && d.createdAt == c.createdAt
    ensures !Truthy(content) ==> d == c
    ensures Truthy(content) ==> d.content == content.value
    ensures d.updatedAt != c.updatedAt ==> d.content != c.content && d.updatedAt == now
    ensures Truthy(content) && content.value != c.content ==> d.updatedAt == now
  {
    var text := OrElse(content, c.content);
    if text == c.content then c else c.(content := text, updatedAt := now)
  }

  /** Sending the same update again, at any later time, changes nothing more. */
  lemma RevisedTwice(c: Comment, content: Option<string>, now: int, later: int)
    ensures Revised(Revised(c, content, now), content, later) == Revised(c, content, now)
  {
  }

  class CommentStore {
    var comments: seq<Comment>

    ghost predicate Valid()
      reads this
    {
      Distinct(Ids(comments))
    }

    constructor ()
      ensures Valid() && comments == []
    {
      comments := [];
    }

    /**
     * getVideoComments: a malformed video id fails in `new ObjectId`; otherwise the pipeline's
     * rows and the parsed paging options (page 1 and limit 10 by default).
     */
    function VideoComments(videoId: Id, users: seq<User>, page: Option<string>, limit: Option<string>): (r: Result<CommentListing>)
      reads this
      ensures !IsValidObjectId(videoId) ==> r == Fail(ServerError)
      ensures IsValidObjectId(videoId) ==>
        && r.Ok?
        && SortedDescending(r.value.rows, RowCreatedAt)
        && (forall v :: v in r.value.rows <==>
              exists c, u :: c in comments && c.video == videoId && u in users && Joins(c, u, v))
        && (Valid() && UniqueUserIds(users) ==> forall v :: multiset(r.value.rows)[v] <= 1)
        && r.value.page == PageOption(page, 1)
        && r.value.limit == PageOption(limit, 10)
    {
      if !IsValidObjectId(videoId) then Fail(ServerError)
      else Ok(CommentListing(VideoCommentRows(comments, users, videoId), PageOption(page, 1), PageOption(limit, 10)))
    }

    /**
     * addComment: 400 for empty or missing content; then a malformed video id fails the cast on
     * create; otherwise a comment on that video owned by the caller is saved.
     */
    method AddComment(videoId: Id, content: Option<string>, caller: Id, newId: Id, now: int) returns (r: Result<Comment>)
      requires Valid() && newId !in Ids(comments)
      modifies this
      ensures Valid()
      ensures !Truthy(content) ==> r == Fail(BadRequest)
      ensures Truthy(content) && !IsValidObjectId(videoId) ==> r == Fail(ServerError)
      ensures r.Fail? ==> comments == old(comments)
      ensures Truthy(content) && IsValidObjectId(videoId) ==>
        && r == Ok(Comment(newId, content.value, videoId, caller, now, now))
        && comments == old(comments) + [r.value]
    {
      if !Truthy(content) {
        return Fail(BadRequest);
      }
      if !IsValidObjectId(videoId) {
        return Fail(ServerError);
      }
      var c := Comment(newId, content.value, videoId, caller, now, now);
      comments := comments + [c];
      r := Ok(c);
    }

    /**
     * updateComment: a malformed id fails the cast in `findById` (500), then 404, then 403 for a
     * caller who is not the owner, each with no change; otherwise the comment is revised.
     */
    method UpdateComment(commentId: Id, caller: Id, content: Option<string>, now: int) returns (r: Result<Comment>)
      requires Valid()
      modifies this
      ensures Valid()
      ensures !IsValidObjectId(commentId) ==> r == Fail(ServerError)
      ensures IsValidObjectId(commentId) && commentId !in old(Ids(comments)) ==> r == Fail(NotFound)
      ensures IsValidObjectId(commentId) && commentId in old(Ids(comments)) ==>
        var i := IndexOf(old(Ids(comments)), commentId).value;
        && (old(comments)[i].owner != caller ==> r == Fail(Forbidden))
        && (old(comments)[i].owner == caller ==>
              && comments == old(comments)[i := Revised(old(comments)[i], content, now)]
              && r == Ok(comments[i]))
      ensures r.Fail? ==> comments == old(comments)
    {
      if !IsValidObjectId(commentId) {
        return Fail(ServerError);
      }
      var found := IndexOf(Ids(comments), commentId);
      if found.None? {
        return Fail(NotFound);
      }
      var i := found.value;
      if comments[i].owner != caller {
        return Fail(Forbidden);
      }
      comments := comments[i := Revised(comments[i], content, now)];
      assert Ids(comments) == old(Ids(comments));
      r := Ok(comments[i]);
    }

    /** deleteComment: the same guards in the same order; then only that comment is removed. */
    method DeleteComment(commentId: Id, caller: Id) returns (r: Result<()>)
      requires Valid()
      modifies this
      ensures Valid()
      ensures !IsValidObjectId(commentId) ==> r == Fail(ServerError)
      ensures IsValidObjectId(commentId) && commentId !in old(Ids(comments)) ==> r == Fail(NotFound)
      ensures IsValidObjectId(commentId) && commentId in old(Ids(comments)) ==>
        var i := IndexOf(old(Ids(comments)), commentId).value;
        && (old(comments)[i].owner != caller ==> r == Fail(Forbidden))
        && (old(comments)[i].owner == caller ==>
              r == Ok(()) && comments == RemoveAt(old(comments), i) && commentId !in Ids(comments))
      ensures r.Fail? ==> comments == old(comments)
    {
      if !IsValidObjectId(commentId) {
        return Fail(ServerError);
      }
      var found := IndexOf(Ids(comments), commentId);
      if found.None? {
        return Fail(NotFound);
      }
      var i := found.value;
      if comments[i].owner != caller {
        return Fail(Forbidden);
      }
      ghost var ids := Ids(comments);
      comments := RemoveAt(comments, i);
      assert Ids(comments) == RemoveAt(ids, i);
      RemoveAtDistinct(ids, i);
      r := Ok(());
    }
  }
}
