/** The video controller over the Video collection: listing, publishing, reading and owner-only edits. */
module Videos {
  import opened Common
  import opened Seqs
  import opened JsText

  /**
   * A Video document. Title, description and duration are stored as the request gave them (the
   * publish handler does not check them); `views` and `isPublished` take the schema defaults.
   */
  datatype Video = Video(
    id: Id,
    title: Option<string>,
    description: Option<string>,
    videoFile: string,
    thumbnail: string,
    duration: Option<string>,
    owner: Id,
    isPublished: bool,
    views: nat,
    createdAt: int)

  /** Schema defaults of a freshly published video. */
  const DefaultViews: nat := 0
  const DefaultPublished := true

  function Ids(vs: seq<Video>): (r: seq<Id>)
    ensures |r| == |vs| && forall i :: 0 <= i < |vs| ==> r[i] == vs[i].id
  {
    seq(|vs|, i requires 0 <= i < |vs| => vs[i].id)
  }

  function CreatedAt(v: Video): int {
    v.createdAt
  }

  // ----- getAllVideos -----

  /** The query string of a listing request; every field is optional. */
  datatype ListingQuery = ListingQuery(
    page: Option<string>,
    limit: Option<string>,
    query: Option<string>,
    sortBy: Option<string>,
    sortType: Option<string>,
    userId: Option<string>)

  /** The `filters` object: an optional `$or` of two case-insensitive regexes, an optional owner. */
  datatype VideoFilter = VideoFilter(text: Option<string>, owner: Option<Id>)

  /** A paging value: the numeric default, or the query-string text passed through unparsed. */
  datatype PageValue = Number(n: nat) | Text(s: string)

  /** The `options` object handed to `paginate`; `sortOrder` is -1 (descending) or 1. */
  datatype ListingOptions = ListingOptions(page: PageValue, limit: PageValue, sortBy: string, sortOrder: int)

  /** The filters are added field by field, each only when its request value is truthy. */
  function BuildFilter(q: ListingQuery): (f: VideoFilter)
    ensures f.text.Some? <==> Truthy(q.query)
    ensures f.text.Some? ==> f.text == q.query
    ensures f.owner.Some? <==> Truthy(q.userId)
    ensures f.owner.Some? ==> f.owner == q.userId
  {
    VideoFilter(if Truthy(q.query) then q.query else None, if Truthy(q.userId) then q.userId else None)
  }

  /** A stored text field matches a case-insensitive pattern: it is present and the pattern occurs in it. */
  predicate FieldMatches(field: Option<string>, pattern: string) {
    field.Some? && ContainsIgnoringCase(field.value, pattern)
  }

  /**
   * What the database does with the filter: every condition it carries must hold, the text one by
   * a match in the title or the description. An empty filter passes every video.
   */
  function Passes(f: VideoFilter, v: Video): (b: bool)
    ensures f.text.None? && f.owner.None? ==> b
    ensures b && f.owner.Some? ==> v.owner == f.owner.value
    ensures b && f.text.Some? ==> FieldMatches(v.title, f.text.value) || FieldMatches(v.description, f.text.value)
    ensures !b ==>
      || (f.owner.Some? && v.owner != f.owner.value)
      || (f.text.Some? && !FieldMatches(v.title, f.text.value) && !FieldMatches(v.description, f.text.value))
  {
    && (f.text.None? || FieldMatches(v.title, f.text.value) || FieldMatches(v.description, f.text.value))
    && (f.owner.None? || v.owner == f.owner.value)
  }

  /**
   * A video is listed iff (no query was given, or its title or description matches the query
   * ignoring case) and (no user id was given, or the user owns it).
   */
  lemma ListingFilterIff(q: ListingQuery, v: Video)
    ensures Passes(BuildFilter(q), v) <==>
      && (!Truthy(q.query) || FieldMatches(v.title, q.query.value) || FieldMatches(v.description, q.query.value))
      && (!Truthy(q.userId) || v.owner == q.userId.value)
  {
  }

  /** Page 1, limit 10, sorted by `createdAt`; descending exactly when `sortType` is (or defaults to) "desc". */
  function BuildOptions(q: ListingQuery): (o: ListingOptions)
    ensures o.page == (if q.page.None? then Number(1) else Text(q.page.value))
    ensures o.limit == (if q.limit.None? then Number(10) else Text(q.limit.value))
    ensures o.sortBy == (if q.sortBy.None? then "createdAt" else q.sortBy.value)
    ensures o.sortOrder == -1 || o.sortOrder == 1
    ensures o.sortOrder == -1 <==> q.sortType.None? || q.sortType.value == "desc"
  {
    var sortType := if q.sortType.None? then "desc" else q.sortType.value;
    ListingOptions(
      if q.page.None? then Number(1) else Text(q.page.value),
      if q.limit.None? then Number(10) else Text(q.limit.value),
      if q.sortBy.None? then "createdAt" else q.sortBy.value,
      if sortType == "desc" then -1 else 1)
  }

  /** The listing before the paginator cuts a page out of it. */
  datatype Listing = Listing(matching: seq<Video>, options: ListingOptions)

  /** The truthiness fallback for an optional stored field: a truthy value, else the stored one. */
  function OrElseStored(given: Option<string>, current: Option<string>): Option<string> {
    if Truthy(given) then given else current
  }

  /**
   * The document after `updateVideo`'s assignments; `newThumbnail` is the uploaded file's URL, if
   * any. A truthy title or description replaces the old one and anything else keeps it; the
   * thumbnail changes exactly to an uploaded file; the owner, the id, the video file, the duration,
   * the counters and the flag are never touched.
   */
  function Edited(v: Video, title: Option<string>, description: Option<string>, newThumbnail: Option<string>): (e: Video)
    ensures && e.id == v.id && e.owner == v.owner && e.videoFile == v.videoFile && e.duration == v.duration
            && e.isPublished == v.isPublished && e.views == v.views && e.createdAt == v.createdAt
    ensures Truthy(title) ==> e.title == title
    ensures !Truthy(title) ==> e.title == v.title
    ensures Truthy(description) ==> e.description == description
    ensures !Truthy(description) ==> e.description == v.description
    ensures newThumbnail.None? ==> e.thumbnail == v.thumbnail
    ensures newThumbnail.Some? ==> e.thumbnail == newThumbnail.value
  {
    v.(title := OrElseStored(title, v.title),
       description := OrElseStored(description, v.description),
       thumbnail := if newThumbnail.Some? then newThumbnail.value else v.thumbnail)
  }

  /** Sending the same update again changes nothing more. */
  lemma EditedTwice(v: Video, title: Option<string>, description: Option<string>, newThumbnail: Option<string>)
    ensures Edited(Edited(v, title, description, newThumbnail), title, description, newThumbnail)
      == Edited(v, title, description, newThumbnail)
  {
  }

  class VideoStore {
    var videos: seq<Video>

    ghost predicate Valid()
      reads this
    {
      Distinct(Ids(videos))
    }

    constructor ()
      ensures Valid() && videos == []
    {
      videos := [];
    }

    /**
     * getAllVideos: the videos the filter selects, and the paging and sort options. A truthy user
     * id that is not an ObjectId makes the query's cast fail.
     */
    function AllVideos(q: ListingQuery): (r: Result<Listing>)
      reads this
      ensures Truthy(q.userId) && !IsValidObjectId(q.userId.value) ==> r == Fail(ServerError)
      ensures !(Truthy(q.userId) && !IsValidObjectId(q.userId.value)) ==>
        && r.Ok?
        && r.value.options == BuildOptions(q)
        && forall v :: multiset(r.value.matching)[v] ==
             if Passes(BuildFilter(q), v) then multiset(videos)[v] else 0
    {
      if Truthy(q.userId) && !IsValidObjectId(q.userId.value) then Fail(ServerError)
      else
        var f := BuildFilter(q);
        Ok(Listing(Filter(videos, (v: Video) => Passes(f, v)), BuildOptions(q)))
    }

    /**
     * publishAVideo: 400 when the video file or the thumbnail is missing, before anything is
     * uploaded or saved; otherwise both are uploaded and a video owned by the caller is saved.
     */
    method PublishAVideo(
      title: Option<string>, description: Option<string>, videoFile: Option<string>,
      thumbnail: Option<string>, duration: Option<string>, caller: Id,
      newId: Id, now: int, upload: (string, string) -> string)
      returns (r: Result<Video>)
      requires Valid() && newId !in Ids(videos)
      modifies this
      ensures Valid()
      ensures videoFile.None? || thumbnail.None? ==> r == Fail(BadRequest) && videos == old(videos)
      ensures videoFile.Some? && thumbnail.Some? ==>
        && r == Ok(Video(newId, title, description, upload(videoFile.value, "video"),
                         upload(thumbnail.value, "image"), duration, caller,
                         DefaultPublished, DefaultViews, now))
        && videos == old(videos) + [r.value]
    {
      if videoFile.None? || thumbnail.None? {
        return Fail(BadRequest);
      }
      var videoUrl := upload(videoFile.value, "video");
      var thumbnailUrl := upload(thumbnail.value, "image");
      var v := Video(newId, title, description, videoUrl, thumbnailUrl, duration, caller,
                     DefaultPublished, DefaultViews, now);
      videos := videos + [v];
      r := Ok(v);
    }

    /** getVideoById: 400 for a malformed id, 404 when no video has it. */
    function VideoById(videoId: Id): (r: Result<Video>)
      reads this
      ensures !IsValidObjectId(videoId) ==> r == Fail(BadRequest)
      ensures IsValidObjectId(videoId) && videoId !in Ids(videos) ==> r == Fail(NotFound)
      ensures r.Ok? <==> IsValidObjectId(videoId) && videoId in Ids(videos)
      ensures r.Ok? ==> r.value in videos && r.value.id == videoId
    {
      if !IsValidObjectId(videoId) then Fail(BadRequest)
      else
        match IndexOf(Ids(videos), videoId)
        case None => Fail(NotFound)
        case Some(i) => Ok(videos[i])
    }

    /**
     * updateVideo: 400 for a malformed id, then 404 when absent, then 403 when the caller does not
     * own it, each with no change; otherwise the video becomes its edited form, with an uploaded
     * thumbnail when a file was sent.
     */
    method UpdateVideo(
      videoId: Id, caller: Id, title: Option<string>, description: Option<string>,
      thumbnailFile: Option<string>, upload: (string, string) -> string)
      returns (r: Result<Video>)
      requires Valid()
      modifies this
      ensures Valid()
      ensures !IsValidObjectId(videoId) ==> r == Fail(BadRequest)
      ensures IsValidObjectId(videoId) && videoId !in old(Ids(videos)) ==> r == Fail(NotFound)
      ensures IsValidObjectId(videoId) && videoId in old(Ids(videos)) ==>
        var i := IndexOf(old(Ids(videos)), videoId).value;
        && (old(videos)[i].owner != caller ==> r == Fail(Forbidden))
        && (old(videos)[i].owner == caller ==>
              var url := if thumbnailFile.Some? then Some(upload(thumbnailFile.value, "image")) else None;
              && videos == old(videos)[i := Edited(old(videos)[i], title, description, url)]
              && r == Ok(videos[i]))
      ensures r.Fail? ==> videos == old(videos)
      ensures |videos| == |old(videos)| && forall j :: 0 <= j < |videos| ==> videos[j].owner == old(videos)[j].owner
    {
      if !IsValidObjectId(videoId) {
        return Fail(BadRequest);
      }
      var found := IndexOf(Ids(videos), videoId);
      if found.None? {
        return Fail(NotFound);
      }
      var i := found.value;
      var v := videos[i];
      if v.owner != caller {
        return Fail(Forbidden);
      }
      var url := if thumbnailFile.Some? then Some(upload(thumbnailFile.value, "image")) else None;
      videos := videos[i := Edited(v, title, description, url)];
      assert Ids(videos) == old(Ids(videos));
      r := Ok(videos[i]);
    }

    /** deleteVideo: the same guards in the same order; then only that video is removed. */
    method DeleteVideo(videoId: Id, caller: Id) returns (r: Result<()>)
      requires Valid()
      modifies this
      ensures Valid()
      ensures !IsValidObjectId(videoId) ==> r == Fail(BadRequest)
      ensures IsValidObjectId(videoId) && videoId !in old(Ids(videos)) ==> r == Fail(NotFound)
      ensures IsValidObjectId(videoId) && videoId in old(Ids(videos)) ==>
        var i := IndexOf(old(Ids(videos)), videoId).value;
        && (old(videos)[i].owner != caller ==> r == Fail(Forbidden))
        && (old(videos)[i].owner == caller ==>
              r == Ok(()) && videos == RemoveAt(old(videos), i) && videoId !in Ids(videos))
      ensures r.Fail? ==> videos == old(videos)
    {
      if !IsValidObjectId(videoId) {
        return Fail(BadRequest);
      }
      var found := IndexOf(Ids(videos), videoId);
      if found.None? {
        return Fail(NotFound);
      }
      var i := found.value;
      if videos[i].owner != caller {
        return Fail(Forbidden);
      }
      ghost var ids := Ids(videos);
      videos := RemoveAt(videos, i);
      assert Ids(videos) == RemoveAt(ids, i);
      RemoveAtDistinct(ids, i);
      r := Ok(());
    }

    /** togglePublishStatus: 400, then 404; then `isPublished` flips. Anyone may call it. */
    method TogglePublishStatus(videoId: Id) returns (r: Result<Video>)
      requires Valid()
      modifies this
      ensures Valid()
      ensures !IsValidObjectId(videoId) ==> r == Fail(BadRequest) && videos == old(videos)
      ensures IsValidObjectId(videoId) && videoId !in old(Ids(videos)) ==> r == Fail(NotFound) && videos == old(videos)
      ensures IsValidObjectId(videoId) && videoId in old(Ids(videos)) ==>
        var i := IndexOf(old(Ids(videos)), videoId).value;
        && videos == old(videos)[i := old(videos)[i].(isPublished := !old(videos)[i].isPublished)]
        && r == Ok(videos[i])
    {
      if !IsValidObjectId(videoId) {
        return Fail(BadRequest);
      }
      var found := IndexOf(Ids(videos), videoId);
      if found.None? {
        return Fail(NotFound);
      }
      var i := found.value;
      videos := videos[i := videos[i].(isPublished := !videos[i].isPublished)];
      assert Ids(videos) == old(Ids(videos));
      r := Ok(videos[i]);
    }
  }

  /** Toggling the publish status twice, by anyone, restores the collection. */
  method TogglePublishTwice(store: VideoStore, videoId: Id, anyone: Id) returns (first: Result<Video>, second: Result<Video>)
    requires store.Valid()
    modifies store
    ensures store.Valid() && store.videos == old(store.videos)
    ensures first.Ok? ==> second.Ok? && second.value.isPublished == !first.value.isPublished
  {
    first := store.TogglePublishStatus(videoId);
    second := store.TogglePublishStatus(videoId);
  }
}
