/** The playlist controller over the Playlist collection; a playlist keeps an ordered list of video ids. */
module Playlists {
  import opened Common
  import opened Seqs

  datatype Playlist = Playlist(id: Id, name: string, description: string, owner: Id, videos: seq<Id>)

  function Ids(ps: seq<Playlist>): (r: seq<Id>)
    ensures |r| == |ps| && forall i :: 0 <= i < |ps| ==> r[i] == ps[i].id
  {
    seq(|ps|, i requires 0 <= i < |ps| => ps[i].id)
  }

  /**
   * The video list after adding `v` unless it is already included: the old list is kept as a
   * prefix, `v` is listed, and nothing else is added.
   */
  function WithVideo(videos: seq<Id>, v: Id): (r: seq<Id>)
    ensures videos <= r && |r| <= |videos| + 1
    ensures forall x :: x in r <==> x in videos || x == v
  {
    if v in videos then videos else videos + [v]
  }

  /** A video not yet in the list goes to the end: the list grows by exactly that one entry. */
  lemma WithVideoAppends(videos: seq<Id>, v: Id)
    requires v !in videos
    ensures WithVideo(videos, v) == videos + [v]
    ensures |WithVideo(videos, v)| == |videos| + 1
  {
  }

  /** Adding a video already present changes nothing, so adding is idempotent. */
  lemma WithVideoIdempotent(videos: seq<Id>, v: Id)
    ensures v in videos ==> WithVideo(videos, v) == videos
    ensures WithVideo(WithVideo(videos, v), v) == WithVideo(videos, v)
    ensures v in WithVideo(videos, v)
  {
  }

  /** Adding never creates a duplicate entry. */
  lemma WithVideoDistinct(videos: seq<Id>, v: Id)
    requires Distinct(videos)
    ensures Distinct(WithVideo(videos, v))
  {
  }

  /** The video list after dropping every entry equal to `v`, keeping the others in order. */
  function WithoutVideo(videos: seq<Id>, v: Id): (r: seq<Id>)
    ensures v !in r
    ensures forall x :: x != v ==> multiset(r)[x] == multiset(videos)[x]
  {
    if videos == [] then []
    else
      assert videos == [videos[0]] + videos[1..];
      (if videos[0] == v then [] else [videos[0]]) + WithoutVideo(videos[1..], v)
  }

  /** Removing works piece by piece, so the remaining videos keep their relative order. */
  lemma {:induction false} WithoutVideoConcat(a: seq<Id>, b: seq<Id>, v: Id)
    ensures WithoutVideo(a + b, v) == WithoutVideo(a, v) + WithoutVideo(b, v)
  {
    if a == [] {
      assert a + b == b;
    } else {
      var head := if a[0] == v then [] else [a[0]];
      assert (a + b)[0] == a[0] && (a + b)[1..] == a[1..] + b;
      assert WithoutVideo(a + b, v) == head + WithoutVideo(a[1..] + b, v);
      assert WithoutVideo(a, v) == head + WithoutVideo(a[1..], v);
      WithoutVideoConcat(a[1..], b, v);
    }
  }

  /** Removing a video that is not in the list leaves the list as it was. */
  lemma {:induction false} WithoutVideoAbsent(videos: seq<Id>, v: Id)
    requires v !in videos
    ensures WithoutVideo(videos, v) == videos
  {
    if videos != [] {
      WithoutVideoAbsent(videos[1..], v);
    }
  }

  /** Removing twice is removing once. */
  lemma WithoutVideoIdempotent(videos: seq<Id>, v: Id)
    ensures WithoutVideo(WithoutVideo(videos, v), v) == WithoutVideo(videos, v)
  {
    WithoutVideoAbsent(WithoutVideo(videos, v), v);
  }

  /** Removing keeps a duplicate-free list duplicate-free. */
  lemma {:induction false} WithoutVideoDistinct(videos: seq<Id>, v: Id)
    requires Distinct(videos)
    ensures Distinct(WithoutVideo(videos, v))
  {
    if videos != [] {
      DistinctTail(videos);
      WithoutVideoDistinct(videos[1..], v);
      var rest := WithoutVideo(videos[1..], v);
      if videos[0] != v {
        assert videos[0] !in rest by {
          assert videos[0] !in videos[1..];
          assert multiset(rest)[videos[0]] == multiset(videos[1..])[videos[0]];
        }
        DistinctCons(videos[0], rest);
      }
    }
  }

  /**
   * A body value for a field of `findByIdAndUpdate`: an absent key leaves the field as it was, and
   * any value sent is stored, so it differs from the `||` fallback only for the empty string.
   */
  function Assigned(given: Option<string>, current: string): (r: string)
    ensures given.None? ==> r == current
    ensures r == if given == Some("") then "" else OrElse(given, current)
  {
    if given.Some? then given.value else current
  }

  /** Every playlist lists each video at most once. */
  ghost predicate NoDuplicateVideos(ps: seq<Playlist>) {
    forall i :: 0 <= i < |ps| ==> Distinct(ps[i].videos)
  }

  class PlaylistStore {
    var playlists: seq<Playlist>

    /** The collection's unique `_id` index. */
    ghost predicate Valid()
      reads this
    {
      Distinct(Ids(playlists))
    }

    constructor ()
      ensures Valid() && playlists == []
    {
      playlists := [];
    }

    /** createPlaylist: name and description are both required; the caller owns the new playlist. */
    method CreatePlaylist(name: Option<string>, description: Option<string>, caller: Id, newId: Id)
      returns (r: Result<Playlist>)
      requires Valid() && newId !in Ids(playlists)
      modifies this
      ensures Valid()
      ensures !Truthy(name) || !Truthy(description) ==> r == Fail(BadRequest) && playlists == old(playlists)
      ensures Truthy(name) && Truthy(description) ==>
        r == Ok(Playlist(newId, name.value, description.value, caller, [])) &&
        playlists == old(playlists) + [r.value]
      ensures NoDuplicateVideos(old(playlists)) ==> NoDuplicateVideos(playlists)
    {
      if !Truthy(name) || !Truthy(description) {
        return Fail(BadRequest);
      }
      var p := Playlist(newId, name.value, description.value, caller, []);
      playlists := playlists + [p];
      r := Ok(p);
    }

    /** getUserPlaylists: exactly the playlists owned by `userId`, or 404 when there are none. */
    function UserPlaylists(userId: Id): (r: Result<seq<Playlist>>)
      reads this
      ensures !IsValidObjectId(userId) ==> r == Fail(BadRequest)
      ensures IsValidObjectId(userId) ==>
        (r == Fail(NotFound) <==> forall p :: p in playlists ==> p.owner != userId)
      ensures r.Ok? ==>
        && IsValidObjectId(userId)
        && |r.value| > 0
        && forall p :: multiset(r.value)[p] == if p.owner == userId then multiset(playlists)[p] else 0
    {
      if !IsValidObjectId(userId) then Fail(BadRequest)
      else
        var owned := Filter(playlists, (p: Playlist) => p.owner == userId);
        assert forall p :: p in playlists && p.owner == userId ==> p in owned by {
          forall p | p in playlists && p.owner == userId ensures p in owned {
            assert multiset(owned)[p] == multiset(playlists)[p] > 0;
          }
        }
        if |owned| == 0 then
          Fail(NotFound)
        else
          assert owned[0] in playlists && owned[0].owner == userId by {
            assert multiset(owned)[owned[0]] > 0;
          }
          Ok(owned)
    }

    /** getPlaylistById: 400 for a malformed id, 404 when no playlist has it. */
    function PlaylistById(playlistId: Id): (r: Result<Playlist>)
      reads this
      ensures !IsValidObjectId(playlistId) ==> r == Fail(BadRequest)
      ensures IsValidObjectId(playlistId) && playlistId !in Ids(playlists) ==> r == Fail(NotFound)
      ensures r.Ok? <==> IsValidObjectId(playlistId) && playlistId in Ids(playlists)
      ensures r.Ok? ==> r.value in playlists && r.value.id == playlistId
    {
      if !IsValidObjectId(playlistId) then Fail(BadRequest)
      else
        match IndexOf(Ids(playlists), playlistId)
        case None => Fail(NotFound)
        case Some(i) => Ok(playlists[i])
    }

    /**
     * addVideoToPlaylist: both ids must be well formed (400) before the playlist is looked up (404);
     * the video is pushed only when the list does not include it yet. No ownership check.
     */
    method AddVideoToPlaylist(playlistId: Id, videoId: Id) returns (r: Result<Playlist>)
      requires Valid()
      modifies this
      ensures Valid()
      ensures !IsValidObjectId(playlistId) || !IsValidObjectId(videoId) ==>
        r == Fail(BadRequest) && playlists == old(playlists)
      ensures IsValidObjectId(playlistId) && IsValidObjectId(videoId) && playlistId !in old(Ids(playlists)) ==>
        r == Fail(NotFound) && playlists == old(playlists)
      ensures IsValidObjectId(playlistId) && IsValidObjectId(videoId) && playlistId in old(Ids(playlists)) ==>
        var i := IndexOf(old(Ids(playlists)), playlistId).value;
        playlists == old(playlists)[i := old(playlists)[i].(videos := WithVideo(old(playlists)[i].videos, videoId))] &&
        r == Ok(playlists[i])
      ensures NoDuplicateVideos(old(playlists)) ==> NoDuplicateVideos(playlists)
    {
      if !IsValidObjectId(playlistId) || !IsValidObjectId(videoId) {
        return Fail(BadRequest);
      }
      var found := IndexOf(Ids(playlists), playlistId);
      if found.None? {
        return Fail(NotFound);
      }
      var i := found.value;
      var p := playlists[i];
      if videoId !in p.videos {
        playlists := playlists[i := p.(videos := p.videos + [videoId])];
      }
      assert Ids(playlists) == old(Ids(playlists));
      r := Ok(playlists[i]);
      if NoDuplicateVideos(old(playlists)) {
        WithVideoDistinct(p.videos, videoId);
      }
    }

    /**
     * removeVideoFromPlaylist: the same guards as adding; then every occurrence of the video is
     * filtered out of the list. No ownership check.
     */
    method RemoveVideoFromPlaylist(playlistId: Id, videoId: Id) returns (r: Result<Playlist>)
      requires Valid()
      modifies this
      ensures Valid()
      ensures !IsValidObjectId(playlistId) || !IsValidObjectId(videoId) ==>
        r == Fail(BadRequest) && playlists == old(playlists)
      ensures IsValidObjectId(playlistId) && IsValidObjectId(videoId) && playlistId !in old(Ids(playlists)) ==>
        r == Fail(NotFound) && playlists == old(playlists)
      ensures IsValidObjectId(playlistId) && IsValidObjectId(videoId) && playlistId in old(Ids(playlists)) ==>
        var i := IndexOf(old(Ids(playlists)), playlistId).value;
        playlists == old(playlists)[i := old(playlists)[i].(videos := WithoutVideo(old(playlists)[i].videos, videoId))] &&
        r == Ok(playlists[i])
      ensures NoDuplicateVideos(old(playlists)) ==> NoDuplicateVideos(playlists)
    {
      if !IsValidObjectId(playlistId) || !IsValidObjectId(videoId) {
        return Fail(BadRequest);
      }
      var found := IndexOf(Ids(playlists), playlistId);
      if found.None? {
        return Fail(NotFound);
      }
      var i := found.value;
      var p := playlists[i];
      playlists := playlists[i := p.(videos := WithoutVideo(p.videos, videoId))];
      assert Ids(playlists) == old(Ids(playlists));
      r := Ok(playlists[i]);
      if NoDuplicateVideos(old(playlists)) {
        WithoutVideoDistinct(p.videos, videoId);
      }
    }

    /** deletePlaylist: 400 for a malformed id, 404 when absent, otherwise only that playlist goes. */
    method DeletePlaylist(playlistId: Id) returns (r: Result<()>)
      requires Valid()
      modifies this
      ensures Valid()
      ensures !IsValidObjectId(playlistId) ==> r == Fail(BadRequest) && playlists == old(playlists)
      ensures IsValidObjectId(playlistId) && playlistId !in old(Ids(playlists)) ==>
        r == Fail(NotFound) && playlists == old(playlists)
      ensures IsValidObjectId(playlistId) && playlistId in old(Ids(playlists)) ==>
        r == Ok(()) &&
        playlists == RemoveAt(old(playlists), IndexOf(old(Ids(playlists)), playlistId).value) &&
        playlistId !in Ids(playlists)
      ensures NoDuplicateVideos(old(playlists)) ==> NoDuplicateVideos(playlists)
    {
      if !IsValidObjectId(playlistId) {
        return Fail(BadRequest);
      }
      var found := IndexOf(Ids(playlists), playlistId);
      if found.None? {
        return Fail(NotFound);
      }
      ghost var ids := Ids(playlists);
      var i := found.value;
      playlists := RemoveAt(playlists, i);
      assert Ids(playlists) == RemoveAt(ids, i);
      RemoveAtDistinct(ids, i);
      r := Ok(());
    }

    /**
     * updatePlaylist: 400 for a malformed id, 404 when absent; a name or description given in the
     * body replaces the stored one, an absent one leaves it. No ownership check.
     */
    method UpdatePlaylist(playlistId: Id, name: Option<string>, description: Option<string>)
      returns (r: Result<Playlist>)
      requires Valid()
      modifies this
      ensures Valid()
      ensures !IsValidObjectId(playlistId) ==> r == Fail(BadRequest) && playlists == old(playlists)
      ensures IsValidObjectId(playlistId) && playlistId !in old(Ids(playlists)) ==>
        r == Fail(NotFound) && playlists == old(playlists)
      ensures IsValidObjectId(playlistId) && playlistId in old(Ids(playlists)) ==>
        var i := IndexOf(old(Ids(playlists)), playlistId).value;
        var p := old(playlists)[i];
        playlists == old(playlists)[i := p.(name := Assigned(name, p.name), description := Assigned(description, p.description))] &&
        r == Ok(playlists[i])
      ensures NoDuplicateVideos(old(playlists)) ==> NoDuplicateVideos(playlists)
    {
      if !IsValidObjectId(playlistId) {
        return Fail(BadRequest);
      }
      var found := IndexOf(Ids(playlists), playlistId);
      if found.None? {
        return Fail(NotFound);
      }
      var i := found.value;
      var p := playlists[i];
      playlists := playlists[i := p.(name := Assigned(name, p.name), description := Assigned(description, p.description))];
      assert Ids(playlists) == old(Ids(playlists));
      r := Ok(playlists[i]);
    }
  }
}
